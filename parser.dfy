/**
 * `parser.py`: the Content-Type test, the allowed-domain test and the
 * filtering loop of `extract_links` (the HTML parser that finds the hrefs and
 * `normalize_url` are passed in).
 */
module Parser {
  import opened Wrappers
  import opened Text
  import Url

  type Headers = map<string, string>

  /** `headers.get('Content-Type') or headers.get('content-type') or ''`: an empty value falls through. */
  function ContentTypeOf(h: Headers): string
  {
    if "Content-Type" in h && h["Content-Type"] != "" then h["Content-Type"]
    else if "content-type" in h && h["content-type"] != "" then h["content-type"]
    else ""
  }

  /** `is_html_content`: the lower-cased Content-Type contains `text/html`. */
  predicate IsHtmlContent(h: Headers)
  {
    Contains(Lower(ContentTypeOf(h)), "text/html")
  }

  /** The test ignores case, and falls back to the lower-case header name. */
  lemma HtmlContentExamples()
    ensures IsHtmlContent(map["Content-Type" := "Text/HTML; charset=UTF-8"])
    ensures IsHtmlContent(map["Content-Type" := "", "content-type" := "text/html"])
    ensures !IsHtmlContent(map[])
  {
    var ct := "Text/HTML; charset=UTF-8";
    assert Lower(ct)[..9] == "text/html";
    ContainsAt(Lower(ct), "text/html", 0);
    var h2 := map["Content-Type" := "", "content-type" := "text/html"];
    assert ContentTypeOf(h2) == "text/html";
    assert Lower("text/html") == "text/html";
    ContainsAt("text/html", "text/html", 0);
    assert Lower("") == "";
  }

  /** The `allowed` argument: a single string or a list of domains. */
  datatype AllowedDomains = OneDomain(name: string) | DomainList(names: seq<string>)

  /** `if isinstance(allowed, str): allowed = [allowed]`. */
  function DomainsOf(a: AllowedDomains): seq<string>
  {
    match a
    case OneDomain(d) => [d]
    case DomainList(ds) => ds
  }

  /** One iteration of the loop: a plain suffix test, or equality without subdomains. */
  predicate DomainMatches(host: string, domain: string, followSubdomains: bool)
  {
    if followSubdomains then EndsWith(host, domain) else host == domain
  }

  /** The loop of `same_reg_domain`, returning at the first domain that matches. */
  function AnyDomainMatches(host: string, domains: seq<string>, followSubdomains: bool): (r: bool)
    ensures r <==> exists i :: 0 <= i < |domains| && DomainMatches(host, domains[i], followSubdomains)
    decreases |domains|
  {
    if domains == [] then false
    else if DomainMatches(host, domains[0], followSubdomains) then true
    else
      var r := AnyDomainMatches(host, domains[1..], followSubdomains);
      assert forall i :: 1 <= i < |domains| ==> domains[i] == domains[1..][i - 1];
      r
  }

  /** The lower-cased host of `url`. */
  function HostOf(url: string): string
  {
    Lower(Url.Netloc(url))
  }

  /** `same_reg_domain`. */
  function SameRegDomain(url: string, allowed: AllowedDomains, followSubdomains: bool): (r: bool)
    ensures r <==> exists d :: d in DomainsOf(allowed) && DomainMatches(HostOf(url), d, followSubdomains)
  {
    AnyDomainMatches(HostOf(url), DomainsOf(allowed), followSubdomains)
  }

  /** Without subdomains only an exact host succeeds; an empty list never matches. */
  lemma {:induction false} ExactHostOnly(url: string, allowed: AllowedDomains)
    ensures SameRegDomain(url, allowed, false) <==> HostOf(url) in DomainsOf(allowed)
    ensures DomainsOf(allowed) == [] ==> !SameRegDomain(url, allowed, true)
  {
  }

  /** A domain written with a capital letter never matches: the host is lower-cased, the domain is not. */
  lemma {:induction false} CapitalDomainNeverMatches(url: string, d: string, followSubdomains: bool)
    requires !NoUpper(d)
    ensures !SameRegDomain(url, OneDomain(d), followSubdomains)
  {
    LowerHasNoUpper(Url.Netloc(url));
  }

  /** A URL `scheme://host path` whose parts `urlsplit` reads without surprises. */
  predicate PlainUrl(scheme: string, host: string, path: string)
  {
    && 0 < |scheme| && Url.IsAsciiLetter(scheme[0])
    && (forall j :: 0 <= j < |scheme| ==> Url.IsSchemeChar(scheme[j]))
    && (forall j :: 0 <= j < |host| ==> host[j] != ':' && !Url.IsAuthorityEnd(host[j]))
    && (path == [] || Url.IsAuthorityEnd(path[0]))
  }

  /** The host of such a URL is its `host` part, lower-cased. */
  lemma {:induction false} HostOfPlainUrl(scheme: string, host: string, path: string)
    requires PlainUrl(scheme, host, path)
    ensures HostOf(scheme + "://" + host + path) == Lower(host)
  {
    var url := scheme + "://" + host + path;
    SplitAtScheme(scheme, host + path);
    NetlocAfterSlashes(url, host + path);
    AuthorityOfHost(host, path);
  }

  /** A URL made of a plain scheme, `://` and `rest` has `//` and `rest` after its scheme. */
  lemma SplitAtScheme(scheme: string, rest: string)
    requires 0 < |scheme| && Url.IsAsciiLetter(scheme[0])
    requires forall j :: 0 <= j < |scheme| ==> Url.IsSchemeChar(scheme[j])
    ensures forall host, path :: host + path == rest ==> Url.AfterScheme(scheme + "://" + host + path) == "//" + rest
  {
    forall host, path | host + path == rest
      ensures Url.AfterScheme(scheme + "://" + host + path) == "//" + rest
    {
      assert scheme + "://" + host + path == scheme + ":" + ("//" + rest);
      AfterPlainScheme(scheme, "//" + rest);
    }
  }

  /** After `//` the network location runs up to the first `/`, `?` or `#`. */
  lemma NetlocAfterSlashes(url: string, rest: string)
    requires Url.AfterScheme(url) == "//" + rest
    ensures Url.Netloc(url) == Url.Authority(rest)
  {
    assert ("//" + rest)[..2] == "//";
    assert ("//" + rest)[2..] == rest;
  }

  /** A scheme of letters, digits, `+`, `-` and `.` that starts with a letter is cut off at its colon. */
  lemma AfterPlainScheme(scheme: string, rest: string)
    requires 0 < |scheme| && Url.IsAsciiLetter(scheme[0])
    requires forall j :: 0 <= j < |scheme| ==> Url.IsSchemeChar(scheme[j])
    ensures Url.AfterScheme(scheme + ":" + rest) == rest
  {
    var url := scheme + ":" + rest;
    assert url[|scheme|] == ':';
    assert forall j :: 0 <= j < |scheme| ==> url[j] == scheme[j];
    IndexOfFirst(url, ':', |scheme|);
    assert url[|scheme| + 1..] == rest;
  }

  lemma IndexOfFirst(s: string, c: char, i: nat)
    requires i < |s| && s[i] == c && forall j :: 0 <= j < i ==> s[j] != c
    ensures Url.IndexOf(s, c) == i
  {
  }

  lemma {:induction false} AuthorityOfHost(host: string, path: string)
    requires forall j :: 0 <= j < |host| ==> !Url.IsAuthorityEnd(host[j])
    requires path == [] || Url.IsAuthorityEnd(path[0])
    ensures Url.Authority(host + path) == host
    decreases |host|
  {
    if host == [] {
      assert host + path == path;
    } else {
      assert (host + path)[0] == host[0];
      assert (host + path)[1..] == host[1..] + path;
      AuthorityOfHost(host[1..], path);
    }
  }

  lemma LowerOfNoUpper(s: string)
    requires NoUpper(s)
    ensures Lower(s) == s
  {
  }

  /**
   * With subdomains followed, any lower-case host ending in the domain matches,
   * whatever precedes it: `sub.example.com` as in the docstring, but also
   * `notexample.com`, since the suffix test ignores label boundaries. Without
   * subdomains, only the bare domain does.
   */
  lemma {:induction false} SuffixMatches(scheme: string, prefix: string, domain: string, path: string)
    requires PlainUrl(scheme, prefix + domain, path) && NoUpper(prefix + domain)
    ensures SameRegDomain(scheme + "://" + prefix + domain + path, OneDomain(domain), true)
    ensures SameRegDomain(scheme + "://" + prefix + domain + path, OneDomain(domain), false) <==> prefix == []
  {
    var host := prefix + domain;
    assert scheme + "://" + prefix + domain + path == scheme + "://" + host + path;
    HostOfPlainUrl(scheme, host, path);
    LowerOfNoUpper(host);
    assert host[|host| - |domain|..] == domain;
    assert DomainMatches(host, domain, true);
    if host == domain {
      assert |prefix| == 0;
    }
  }

  /** A host that does not end in the domain matches in neither mode. */
  lemma {:induction false} ForeignHostRejected(scheme: string, host: string, domain: string, path: string, followSubdomains: bool)
    requires PlainUrl(scheme, host, path) && !EndsWith(Lower(host), domain)
    ensures !SameRegDomain(scheme + "://" + host + path, OneDomain(domain), followSubdomains)
  {
    HostOfPlainUrl(scheme, host, path);
    assert Lower(host) != domain;
  }

  /** The gate of `extract_links`: a truthy normalised URL shorter than 2048 characters. */
  predicate LinkGate(u: string)
  {
    u != "" && |u| < 2048
  }

  /** The normalised hrefs that pass the gate, in document order, before the cap. */
  function KeptLinks(hrefs: seq<string>, normalize: string -> Option<string>): seq<string>
    decreases |hrefs|
  {
    if hrefs == [] then []
    else
      var n := normalize(hrefs[0]);
      (if n.Some? && LinkGate(n.value) then [n.value] else []) + KeptLinks(hrefs[1..], normalize)
  }

  /** Filtering keeps document order: it distributes over concatenation. */
  lemma {:induction false} KeptLinksConcat(a: seq<string>, b: seq<string>, normalize: string -> Option<string>)
    ensures KeptLinks(a + b, normalize) == KeptLinks(a, normalize) + KeptLinks(b, normalize)
    decreases |a|
  {
    if a == [] {
      assert a + b == b;
    } else {
      assert (a + b)[0] == a[0];
      assert (a + b)[1..] == a[1..] + b;
      KeptLinksConcat(a[1..], b, normalize);
    }
  }

  /** Every kept link passes the gate and is the normalisation of some href. */
  lemma {:induction false} KeptLinksSound(hrefs: seq<string>, normalize: string -> Option<string>)
    ensures forall u :: u in KeptLinks(hrefs, normalize) ==>
      LinkGate(u) && exists h :: h in hrefs && normalize(h) == Some(u)
    decreases |hrefs|
  {
    if hrefs != [] {
      KeptLinksSound(hrefs[1..], normalize);
      forall u | u in KeptLinks(hrefs[1..], normalize)
        ensures exists h :: h in hrefs && normalize(h) == Some(u)
      {
        var h :| h in hrefs[1..] && normalize(h) == Some(u);
        assert h in hrefs;
      }
    }
  }

  /**
   * The loop of `extract_links` over the hrefs the HTML parser found: stop once
   * `max_links` links are collected, keep each normalised href that passes the gate.
   */
  method ExtractLinks(hrefs: seq<string>, normalize: string -> Option<string>, maxLinks: int)
    returns (links: seq<string>)
    ensures var kept := KeptLinks(hrefs, normalize);
      links == kept[..Min(Max(0, maxLinks), |kept|)]
  {
    links := [];
    var i := 0;
    while i < |hrefs|
      invariant 0 <= i <= |hrefs|
      invariant |links| <= Max(0, maxLinks)
      invariant KeptLinks(hrefs, normalize) == links + KeptLinks(hrefs[i..], normalize)
    {
      if |links| >= maxLinks {
        break;
      }
      KeptLinksAdvance(hrefs, i, normalize, links);
      var n := normalize(hrefs[i]);
      if n.Some? && n.value != "" && |n.value| < 2048 {
        links := links + [n.value];
      }
      i := i + 1;
    }
    CapPrefix(KeptLinks(hrefs, normalize), links, KeptLinks(hrefs[i..], normalize), Max(0, maxLinks));
  }

  /** A loop that kept `links` out of `kept` and stopped at the cap or at the end returns the capped prefix. */
  lemma CapPrefix(kept: seq<string>, links: seq<string>, rest: seq<string>, cap: nat)
    requires kept == links + rest && |links| <= cap && (|links| == cap || rest == [])
    ensures links == kept[..Min(cap, |kept|)]
  {
    assert kept[..|links|] == links;
  }

  /** One more href: its link, when it passes the gate, moves from the links still to come to the links kept. */
  lemma KeptLinksAdvance(hrefs: seq<string>, i: nat, normalize: string -> Option<string>, links: seq<string>)
    requires i < |hrefs|
    ensures var n := normalize(hrefs[i]);
      links + KeptLinks(hrefs[i..], normalize)
      == (if n.Some? && n.value != "" && |n.value| < 2048 then links + [n.value] else links) + KeptLinks(hrefs[i + 1..], normalize)
  {
    KeptLinksStep(hrefs, i, normalize);
    var n := normalize(hrefs[i]);
    if n.Some? && LinkGate(n.value) {
      assert links + ([n.value] + KeptLinks(hrefs[i + 1..], normalize)) == (links + [n.value]) + KeptLinks(hrefs[i + 1..], normalize);
    }
  }

  lemma KeptLinksStep(hrefs: seq<string>, i: nat, normalize: string -> Option<string>)
    requires i < |hrefs|
    ensures var n := normalize(hrefs[i]);
      KeptLinks(hrefs[i..], normalize)
      == (if n.Some? && LinkGate(n.value) then [n.value] else []) + KeptLinks(hrefs[i + 1..], normalize)
  {
    assert hrefs[i..][0] == hrefs[i];
    assert hrefs[i..][1..] == hrefs[i + 1..];
  }

  /** The result of `extract_links` is capped, gated and drawn from the hrefs. */
  lemma ExtractLinksBounds(hrefs: seq<string>, normalize: string -> Option<string>, maxLinks: int, links: seq<string>)
    requires var kept := KeptLinks(hrefs, normalize); links == kept[..Min(Max(0, maxLinks), |kept|)]
    ensures |links| <= Max(0, maxLinks)
    ensures forall u :: u in links ==> LinkGate(u) && exists h :: h in hrefs && normalize(h) == Some(u)
  {
    KeptLinksSound(hrefs, normalize);
    var kept := KeptLinks(hrefs, normalize);
    assert forall u :: u in links ==> u in kept;
  }
}
