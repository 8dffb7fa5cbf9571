/**
 * `utils.py`: the component-level steps of `normalize_url`, a stand-in for
 * `urlsplit(url).netloc`, and the per-key `RateLimiter` with an explicit clock.
 */
module Url {
  import opened Wrappers
  import opened Text

  /** The five parts `urlsplit` yields: scheme, netloc, path, query, fragment. */
  datatype SplitUrl = SplitUrl(scheme: string, netloc: string, path: string, query: string, fragment: string)

  predicate IsSchemeChar(c: char)
  {
    ('a' <= c <= 'z') || ('A' <= c <= 'Z') || ('0' <= c <= '9') || c == '+' || c == '-' || c == '.'
  }

  predicate IsAsciiLetter(c: char)
  {
    ('a' <= c <= 'z') || ('A' <= c <= 'Z')
  }

  /** Index of the first `c` in `s`, or `|s|` when there is none. */
  function IndexOf(s: string, c: char): (i: nat)
    ensures i <= |s|
    ensures i < |s| ==> s[i] == c
    ensures forall j :: 0 <= j < i ==> s[j] != c
    decreases |s|
  {
    if s == [] then 0 else if s[0] == c then 0 else 1 + IndexOf(s[1..], c)
  }

  predicate IsAuthorityEnd(c: char) { c == '/' || c == '?' || c == '#' }

  /** The longest prefix of `s` without `/`, `?` or `#`. */
  function Authority(s: string): (r: string)
    ensures r <= s
    ensures forall j :: 0 <= j < |r| ==> !IsAuthorityEnd(r[j])
    ensures |r| < |s| ==> IsAuthorityEnd(s[|r|])
    decreases |s|
  {
    if s == [] || IsAuthorityEnd(s[0]) then [] else [s[0]] + Authority(s[1..])
  }

  /** What follows the scheme and its colon, when `url` starts with a scheme as `urlsplit` recognises one. */
  function AfterScheme(url: string): string
  {
    var i := IndexOf(url, ':');
    if 0 < i < |url| && IsAsciiLetter(url[0]) && forall j :: 0 <= j < i ==> IsSchemeChar(url[j])
    then url[i + 1..]
    else url
  }

  /** `urlsplit(url).netloc`: the part after `//` up to the first `/`, `?` or `#`; empty when there is no `//`. */
  function Netloc(url: string): (r: string)
    ensures forall j :: 0 <= j < |r| ==> !IsAuthorityEnd(r[j])
  {
    var rest := AfterScheme(url);
    if |rest| >= 2 && rest[..2] == "//" then Authority(rest[2..]) else ""
  }

  /** The default-port step: a trailing `:80` goes for `http`, a trailing `:443` for `https`. */
  function StripDefaultPort(scheme: string, netloc: string): string
  {
    var n1 := if EndsWith(netloc, ":80") && scheme == "http" then netloc[..|netloc| - 3] else netloc;
    if EndsWith(n1, ":443") && scheme == "https" then n1[..|n1| - 4] else n1
  }

  /**
   * `netloc` is the lowered netloc `n` with the default port of `scheme`
   * removed: `:80` when `http` and `n` ends in it, `:443` when `https` and `n`
   * ends in it, and nothing otherwise.
   */
  predicate DefaultPortStripped(scheme: string, n: string, netloc: string)
  {
    && (scheme == "http" && EndsWith(n, ":80") ==> netloc + ":80" == n)
    && (scheme == "https" && EndsWith(n, ":443") ==> netloc + ":443" == n)
    && (!(scheme == "http" && EndsWith(n, ":80")) && !(scheme == "https" && EndsWith(n, ":443")) ==> netloc == n)
  }

  lemma StripDefaultPortRule(scheme: string, n: string)
    ensures DefaultPortStripped(scheme, n, StripDefaultPort(scheme, n))
  {
    if EndsWith(n, ":80") && scheme == "http" {
      assert n == n[..|n| - 3] + ":80";
    } else if EndsWith(n, ":443") && scheme == "https" {
      assert n == n[..|n| - 4] + ":443";
    }
  }

  /**
   * The steps `normalize_url` applies to the parts of the resolved, defragmented
   * URL: lower-case scheme and netloc, drop a default port, re-quote the path
   * (`quote(unquote(path))`, passed in as `requote`).
   */
  function NormalizeParts(p: SplitUrl, requote: string -> string): (r: SplitUrl)
    ensures r.scheme == Lower(p.scheme) && NoUpper(r.scheme)
    ensures NoUpper(r.netloc) && DefaultPortStripped(r.scheme, Lower(p.netloc), r.netloc)
    ensures r.path == requote(p.path) && r.query == p.query && r.fragment == p.fragment
  {
    var scheme := Lower(p.scheme);
    StripDefaultPortRule(scheme, Lower(p.netloc));
    var netloc := StripDefaultPort(scheme, Lower(p.netloc));
    SplitUrl(scheme, netloc, requote(p.path), p.query, p.fragment)
  }

  /**
   * `q` is the normal form of `p`: lower-case scheme, a netloc with no
   * capital that is `p`'s lower-cased netloc with the scheme's default port
   * removed, the path re-quoted, query and fragment kept.
   */
  predicate NormalFormOf(q: SplitUrl, p: SplitUrl, requote: string -> string)
  {
    && q.scheme == Lower(p.scheme) && NoUpper(q.netloc)
    && DefaultPortStripped(q.scheme, Lower(p.netloc), q.netloc)
    && q.path == requote(p.path) && q.query == p.query && q.fragment == p.fragment
  }

  /** The normal form is unique, so `normalize_url` fixes every part of the URL it unsplits. */
  lemma NormalFormUnique(q1: SplitUrl, q2: SplitUrl, p: SplitUrl, requote: string -> string)
    requires NormalFormOf(q1, p, requote) && NormalFormOf(q2, p, requote)
    ensures q1 == q2
  {
    var n := Lower(p.netloc);
    var a, b := q1.netloc, q2.netloc;
    if q1.scheme == "http" && EndsWith(n, ":80") {
      assert a == (a + ":80")[..|a|] && b == (b + ":80")[..|b|];
    } else if q1.scheme == "https" && EndsWith(n, ":443") {
      assert a == (a + ":443")[..|a|] && b == (b + ":443")[..|b|];
    }
  }

  /**
   * `normalize_url`: `resolved` is what `urljoin`, `urldefrag` and `urlsplit`
   * yield (None when one of them raises), `unsplit` is `urlunsplit`. A URL
   * comes back exactly when those succeed, and it is the unsplit form of a
   * normal form of the parts.
   */
  function NormalizeUrl(resolved: Option<SplitUrl>, requote: string -> string, unsplit: SplitUrl -> string): (r: Option<string>)
    ensures r.Some? <==> resolved.Some?
    ensures r.Some? ==> exists q :: NormalFormOf(q, resolved.value, requote) && r.value == unsplit(q)
  {
    match resolved
    case None => None
    case Some(p) =>
      Some(unsplit(NormalizeParts(p, requote)))
  }

  /**
   * At most one default port is stripped, and only the one that belongs to the
   * scheme: the netloc loses nothing, `:80` under `http`, or `:443` under `https`.
   */
  lemma DefaultPortRule(p: SplitUrl, requote: string -> string)
    ensures var r := NormalizeParts(p, requote);
      var n := Lower(p.netloc);
      || r.netloc == n
      || (r.scheme == "http" && r.netloc + ":80" == n)
      || (r.scheme == "https" && r.netloc + ":443" == n)
  {
    var n := Lower(p.netloc);
    var scheme := Lower(p.scheme);
    if EndsWith(n, ":80") && scheme == "http" {
      assert n == n[..|n| - 3] + ":80";
    } else if EndsWith(n, ":443") && scheme == "https" {
      assert n == n[..|n| - 4] + ":443";
    }
  }

  /** `HTTP://Example.COM:80/a` becomes scheme `http`, netloc `example.com`. */
  lemma NormalizeExample(requote: string -> string)
    ensures var r := NormalizeParts(SplitUrl("HTTP", "Example.COM:80", "/a", "", ""), requote);
      r.scheme == "http" && r.netloc == "example.com"
  {
    var r := NormalizeParts(SplitUrl("HTTP", "Example.COM:80", "/a", "", ""), requote);
    assert Lower("HTTP") == "http";
    assert Lower("Example.COM:80") == "example.com:80";
    assert EndsWith("example.com:80", ":80");
    assert "example.com:80"[..11] == "example.com";
  }

  /** A `:443` port is kept under `http`, and `:80` under `https`. */
  lemma ForeignPortKept(requote: string -> string)
    ensures NormalizeParts(SplitUrl("http", "a:443", "", "", ""), requote).netloc == "a:443"
    ensures NormalizeParts(SplitUrl("https", "a:80", "", "", ""), requote).netloc == "a:80"
  {
    assert Lower("http") == "http";
    assert Lower("https") == "https";
    assert Lower("a:443") == "a:443";
    assert Lower("a:80") == "a:80";
    assert !EndsWith("a:443", ":80");
    assert !EndsWith("a:80", ":443");
  }

  /** `self.last.get(key, 0.0)`. */
  function LastOf(last: map<string, real>, key: string): real
  {
    if key in last then last[key] else 0.0
  }

  /** How long `wait` sleeps: `min_delay - (now - last)` when positive, else nothing. */
  function SleepFor(minDelay: real, last: real, now: real): (d: real)
    ensures d >= 0.0
    ensures now + d >= last + minDelay
    ensures d > 0.0 ==> now + d == last + minDelay
  {
    if minDelay - (now - last) > 0.0 then minDelay - (now - last) else 0.0
  }

  /**
   * Per-key minimum spacing between requests. `wait` holds the lock while it
   * sleeps, so each call is one atomic step; `now` is the clock reading taken
   * when the call starts.
   */
  class RateLimiter {
    const minDelay: real
    /** `self.last`: for each key, the value `wait` stored last. */
    var last: map<string, real>

    /** `__init__`: the delay is clamped to be non-negative. */
    constructor (delay: real)
      ensures minDelay == if delay > 0.0 then delay else 0.0
      ensures last == map[]
    {
      minDelay := if delay > 0.0 then delay else 0.0;
      last := map[];
    }

    /**
     * `wait(key)`: returns how long it slept. With a zero delay nothing happens.
     * Otherwise it stores `now + delay`, which is the previous value plus
     * `min_delay` whether or not it slept.
     */
    method Wait(key: string, now: real) returns (slept: real)
      modifies this
      ensures minDelay <= 0.0 ==> slept == 0.0 && last == old(last)
      ensures minDelay > 0.0 ==> slept == SleepFor(minDelay, LastOf(old(last), key), now)
      ensures minDelay > 0.0 ==> last == old(last)[key := LastOf(old(last), key) + minDelay]
    {
      if minDelay <= 0.0 {
        return 0.0;
      }
      var prev := LastOf(last, key);
      var delay := minDelay - (now - prev);
      slept := 0.0;
      if delay > 0.0 {
        slept := delay;
      }
      last := last[key := now + delay];
    }
  }

  /**
   * As written, the stored value can lie in the past: after an idle key, two
   * calls half a second apart both return at once although `min_delay` is 1.
   */
  lemma IdleKeyLetsBurstThrough()
    ensures var first := SleepFor(1.0, LastOf(map[], "h"), 1000.0);
      var stored := LastOf(map[], "h") + 1.0;
      var second := SleepFor(1.0, stored, 1000.5);
      first == 0.0 && second == 0.0 && (1000.5 + second) - (1000.0 + first) < 1.0
  {
  }

  /**
   * The evidently intended reservation: the time the wait ends, `now + slept`.
   * Two consecutive calls on one key then always end at least `min_delay`
   * apart, whenever the second one starts.
   */
  function IntendedReservation(minDelay: real, last: real, now: real): (r: real)
    ensures r >= now && r >= last + minDelay
  {
    now + SleepFor(minDelay, last, now)
  }

  lemma IntendedSpacing(minDelay: real, last: real, t1: real, t2: real)
    ensures var r1 := IntendedReservation(minDelay, last, t1);
      t2 + SleepFor(minDelay, r1, t2) - r1 >= minDelay
  {
  }
}
