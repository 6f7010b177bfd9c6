/** URLs as the crawler compares them: normalisation, origins, and discovery scopes. */
module Urls {
  import opened Wrappers

  datatype Scope = SameHost | SameDomain | Any

  /** A parsed URL. `page` stands for the path and query in normalised text. */
  datatype Url = Url(scheme: string, host: Option<string>, port: Option<nat>, page: string)

  /** A piece of text read as a URL; None when it does not parse. */
  type Link = Option<Url>

  datatype OriginKey = OriginKey(scheme: string, host: string, port: Option<nat>)

  function LowerChar(c: char): char {
    if 'A' <= c <= 'Z' then (c as int + 32) as char else c
  }

  function Lower(s: string): (r: string)
    ensures |r| == |s|
  {
    seq(|s|, i requires 0 <= i < |s| => LowerChar(s[i]))
  }

  predicate EndsWith(s: string, suffix: string) {
    |suffix| <= |s| && s[|s| - |suffix|..] == suffix
  }

  predicate IsHttp(u: Url) {
    u.scheme == "http" || u.scheme == "https"
  }

  function DropDefaultPort(u: Url): Option<nat> {
    if (u.scheme == "https" && u.port == Some(443)) || (u.scheme == "http" && u.port == Some(80))
    then None else u.port
  }

  function NormalizeUrl(u: Url): Option<Url> {
    if !IsHttp(u) then None else Some(u.(port := DropDefaultPort(u)))
  }

  function ExtractHost(u: Url): Option<string> {
    match u.host
    case None => None
    case Some(h) => Some(Lower(h))
  }

  function OriginOf(u: Url): Option<OriginKey> {
    if !IsHttp(u) || u.host.None? then None
    else Some(OriginKey(u.scheme, Lower(u.host.value), DropDefaultPort(u)))
  }

  predicate HostMatchesScope(candidate: string, anchor: string, scope: Scope) {
    match scope
    case Any => true
    case SameHost => Lower(candidate) == Lower(anchor)
    case SameDomain =>
      || Lower(candidate) == Lower(anchor)
      || EndsWith(Lower(candidate), "." + Lower(anchor))
  }

  predicate UrlMatchesDomains(u: Link, domains: seq<string>) {
    u.Some? && ExtractHost(u.value).Some? &&
    exists d <- domains :: HostMatchesScope(ExtractHost(u.value).value, d, SameDomain)
  }

  /** Normalising a URL keeps its host and its origin, so scope checks made before it stay true. */
  lemma NormalizeKeepsOrigin(u: Url)
    requires NormalizeUrl(u).Some?
    ensures ExtractHost(NormalizeUrl(u).value) == ExtractHost(u)
    ensures OriginOf(NormalizeUrl(u).value) == OriginOf(u)
    ensures NormalizeUrl(NormalizeUrl(u).value) == NormalizeUrl(u)
  {
  }

  // ---- what hosts and addresses are equal -------------------------------

  /** The same character, or the same letter in the other case. */
  predicate SameChar(c: char, d: char) {
    c == d || ('A' <= c <= 'Z' && d as int == c as int + 32) || ('A' <= d <= 'Z' && c as int == d as int + 32)
  }

  /** The same text, except for the case of letters. */
  predicate SameText(s: string, t: string) {
    |s| == |t| && forall i :: 0 <= i < |s| ==> SameChar(s[i], t[i])
  }

  /** The host is the domain, or ends in a dot and the domain. */
  predicate OnDomain(host: string, domain: string) {
    var n := |host| - |domain|;
    n >= 0 && SameText(host[n..], domain) && (n > 0 ==> host[n - 1] == '.')
  }

  lemma LowerCharIff(c: char, d: char)
    ensures LowerChar(c) == LowerChar(d) <==> SameChar(c, d)
  {
    if LowerChar(c) == LowerChar(d) {
      assert LowerChar(c) as int == LowerChar(d) as int;
    }
  }

  lemma LowerIff(s: string, t: string)
    ensures Lower(s) == Lower(t) <==> SameText(s, t)
  {
    if Lower(s) == Lower(t) {
      assert |s| == |Lower(s)| == |Lower(t)| == |t|;
      forall i | 0 <= i < |s|
        ensures SameChar(s[i], t[i])
      {
        assert Lower(s)[i] == Lower(t)[i];
        LowerCharIff(s[i], t[i]);
      }
    }
    if SameText(s, t) {
      assert Lower(s) == Lower(t);
    }
  }

  /** What a scope lets in: hosts equal up to case, or on the anchor's domain. */
  lemma HostMatchesIff(host: string, anchor: string, scope: Scope)
    ensures scope.Any? ==> HostMatchesScope(host, anchor, scope)
    ensures scope.SameHost? ==> (HostMatchesScope(host, anchor, scope) <==> SameText(host, anchor))
    ensures scope.SameDomain? ==> (HostMatchesScope(host, anchor, scope) <==> OnDomain(host, anchor))
  {
    var n := |host| - |anchor|;
    LowerIff(host, anchor);
    if n > 0 {
      TailIff(host, anchor, n);
    } else {
      assert !EndsWith(Lower(host), "." + Lower(anchor));
      if n == 0 {
        assert host[n..] == host;
      }
    }
  }

  lemma TailIff(host: string, anchor: string, n: nat)
    requires n == |host| - |anchor| && n > 0
    ensures EndsWith(Lower(host), "." + Lower(anchor)) <==> SameText(host[n..], anchor) && host[n - 1] == '.'
  {
    assert Lower(host)[n - 1..] == [Lower(host)[n - 1]] + Lower(host[n..]);
    assert Lower(host)[n - 1] == '.' <==> host[n - 1] == '.';
    LowerIff(host[n..], anchor);
    var tail, dotted := [Lower(host)[n - 1]] + Lower(host[n..]), "." + Lower(anchor);
    if tail == dotted {
      assert tail[0] == dotted[0] && tail[1..] == dotted[1..];
    }
  }

  /** Text put before a domain keeps a host on it exactly if there is none or it ends in a dot. */
  lemma SubdomainIff(prefix: string, domain: string)
    ensures HostMatchesScope(prefix + domain, domain, SameDomain) <==> prefix == "" || prefix[|prefix| - 1] == '.'
  {
    HostMatchesIff(prefix + domain, domain, SameDomain);
    assert (prefix + domain)[|prefix|..] == domain;
  }

  /** Whether a URL lies on one of the domains. */
  predicate OnDomains(u: Link, domains: seq<string>) {
    u.Some? && u.value.host.Some? && exists d <- domains :: OnDomain(u.value.host.value, d)
  }

  lemma LoweredHost(host: string, domain: string)
    ensures OnDomain(Lower(host), domain) <==> OnDomain(host, domain)
  {
    HostMatchesIff(host, domain, SameDomain);
    HostMatchesIff(Lower(host), domain, SameDomain);
    LowerTwice(host);
  }

  lemma LowerTwice(s: string)
    ensures Lower(Lower(s)) == Lower(s)
  {
  }

  lemma MatchesDomainsIff(u: Link, domains: seq<string>)
    ensures UrlMatchesDomains(u, domains) <==> OnDomains(u, domains)
  {
    if u.Some? && u.value.host.Some? {
      var host := u.value.host.value;
      forall d | d in domains
        ensures HostMatchesScope(Lower(host), d, SameDomain) <==> OnDomain(host, d)
      {
        HostMatchesIff(Lower(host), d, SameDomain);
        LoweredHost(host, d);
      }
    }
  }

  /** The port a URL stands for. */
  function PortInUse(u: Url): nat {
    if u.port.Some? then u.port.value else if u.scheme == "https" then 443 else 80
  }

  /** Two URLs of the web with one address: they differ at most in whether they write the default port. */
  predicate SameAddress(u: Url, v: Url) {
    && u.scheme in {"http", "https"} && u.scheme == v.scheme
    && u.host == v.host && PortInUse(u) == PortInUse(v) && u.page == v.page
  }

  /** Two URLs normalise to one exactly if they have one address; a normalised URL has the address it came from. */
  lemma NormalizeIff(u: Url, v: Url)
    ensures NormalizeUrl(u).Some? && NormalizeUrl(u) == NormalizeUrl(v) <==> SameAddress(u, v)
    ensures NormalizeUrl(u).Some? ==> SameAddress(u, NormalizeUrl(u).value)
  {
  }

  /** Two URLs share an origin exactly if they have one scheme, one port in use, and hosts equal up to case. */
  lemma SameOriginIff(u: Url, v: Url)
    ensures OriginOf(u).Some? && OriginOf(u) == OriginOf(v) <==>
      && u.scheme in {"http", "https"} && u.scheme == v.scheme && PortInUse(u) == PortInUse(v)
      && u.host.Some? && v.host.Some? && SameText(u.host.value, v.host.value)
  {
    if u.host.Some? && v.host.Some? {
      LowerIff(u.host.value, v.host.value);
    }
  }

  // ---- discovered links -------------------------------------------------

  /** Whether a link found on a page may be followed under the page's scope and anchor host. */
  predicate LinkAllowed(l: Link, scope: Scope, anchor: Option<string>) {
    scope.Any? ||
    (anchor.Some? && l.Some? && ExtractHost(l.value).Some? &&
     HostMatchesScope(ExtractHost(l.value).value, anchor.value, scope))
  }

  function AllowedLinks(links: seq<Link>, scope: Scope, anchor: Option<string>): seq<Link> {
    if links == [] then []
    else if LinkAllowed(links[0], scope, anchor) then [links[0]] + AllowedLinks(links[1..], scope, anchor)
    else AllowedLinks(links[1..], scope, anchor)
  }

  /** The first `limit` allowed links, in page order; a limit below one still lets one through. */
  function FilteredLinks(links: seq<Link>, scope: Scope, anchor: Option<string>, limit: nat): seq<Link> {
    var all := AllowedLinks(links, scope, anchor);
    all[..Min(|all|, Max(limit, 1))]
  }

  /** A link is followed under any scope but Any only if its host is known, and is the anchor or on its domain. */
  predicate InReach(l: Link, scope: Scope, anchor: Option<string>) {
    scope.Any? ||
    (anchor.Some? && l.Some? && l.value.host.Some? &&
     if scope.SameHost? then SameText(l.value.host.value, anchor.value)
     else OnDomain(l.value.host.value, anchor.value))
  }

  lemma LinkAllowedIff(l: Link, scope: Scope, anchor: Option<string>)
    ensures LinkAllowed(l, scope, anchor) <==> InReach(l, scope, anchor)
  {
    if anchor.Some? && l.Some? && l.value.host.Some? {
      var host := l.value.host.value;
      HostMatchesIff(Lower(host), anchor.value, scope);
      HostMatchesIff(host, anchor.value, scope);
      LowerTwice(host);
    }
  }

  lemma {:induction false} AllowedLinksSound(links: seq<Link>, scope: Scope, anchor: Option<string>)
    ensures forall l :: l in AllowedLinks(links, scope, anchor) <==> l in links && LinkAllowed(l, scope, anchor)
    ensures forall l <- links :: LinkAllowed(l, scope, anchor) <==> InReach(l, scope, anchor)
  {
    forall l | l in links
      ensures LinkAllowed(l, scope, anchor) <==> InReach(l, scope, anchor)
    {
      LinkAllowedIff(l, scope, anchor);
    }
    if links != [] {
      AllowedLinksSound(links[1..], scope, anchor);
    }
  }

  lemma {:induction false} AllowedLinksSnoc(links: seq<Link>, l: Link, scope: Scope, anchor: Option<string>)
    ensures AllowedLinks(links + [l], scope, anchor)
         == AllowedLinks(links, scope, anchor) + (if LinkAllowed(l, scope, anchor) then [l] else [])
  {
    if links != [] {
      assert (links + [l])[1..] == links[1..] + [l];
      AllowedLinksSnoc(links[1..], l, scope, anchor);
    }
  }

  lemma {:induction false} AllowedLinksPrefix(a: seq<Link>, b: seq<Link>, scope: Scope, anchor: Option<string>)
    ensures AllowedLinks(a, scope, anchor) <= AllowedLinks(a + b, scope, anchor)
    decreases |b|
  {
    if b == [] {
      assert a + b == a;
    } else {
      assert a + b == (a + b[..|b| - 1]) + [b[|b| - 1]];
      AllowedLinksPrefix(a, b[..|b| - 1], scope, anchor);
      AllowedLinksSnoc(a + b[..|b| - 1], b[|b| - 1], scope, anchor);
    }
  }

  /** How many of the links before place i are in reach. */
  function ReachBefore(links: seq<Link>, scope: Scope, anchor: Option<string>, i: nat): nat
    requires i <= |links|
  {
    if i == 0 then 0
    else ReachBefore(links, scope, anchor, i - 1) + (if InReach(links[i - 1], scope, anchor) then 1 else 0)
  }

  lemma {:induction false} AllowedCount(links: seq<Link>, scope: Scope, anchor: Option<string>, i: nat)
    requires i <= |links|
    ensures |AllowedLinks(links[..i], scope, anchor)| == ReachBefore(links, scope, anchor, i)
  {
    if i > 0 {
      AllowedCount(links, scope, anchor, i - 1);
      assert links[..i] == links[..i - 1] + [links[i - 1]];
      AllowedLinksSnoc(links[..i - 1], links[i - 1], scope, anchor);
      LinkAllowedIff(links[i - 1], scope, anchor);
    }
  }

  /** The link at place i is in reach, and fewer than so many were before it. */
  predicate InReachAt(links: seq<Link>, scope: Scope, anchor: Option<string>, limit: nat, i: nat) {
    i < |links| && InReach(links[i], scope, anchor) && ReachBefore(links, scope, anchor, i) < limit
  }

  lemma {:induction false} AllowedAt(links: seq<Link>, scope: Scope, anchor: Option<string>, k: nat, n: nat)
      returns (i: nat)
    requires n <= |links| && k < |AllowedLinks(links[..n], scope, anchor)|
    ensures i < n && links[i] == AllowedLinks(links[..n], scope, anchor)[k] && InReach(links[i], scope, anchor)
    ensures ReachBefore(links, scope, anchor, i) == k
    decreases n
  {
    assert n > 0;
    assert links[..n] == links[..n - 1] + [links[n - 1]];
    AllowedLinksSnoc(links[..n - 1], links[n - 1], scope, anchor);
    if k < |AllowedLinks(links[..n - 1], scope, anchor)| {
      i := AllowedAt(links, scope, anchor, k, n - 1);
    } else {
      i := n - 1;
      LinkAllowedIff(links[i], scope, anchor);
      AllowedCount(links, scope, anchor, i);
    }
  }

  /** The links let through are those in reach with fewer than the limit before them. */
  lemma FilteredLinksIff(links: seq<Link>, scope: Scope, anchor: Option<string>, limit: nat, l: Link)
    ensures l in FilteredLinks(links, scope, anchor, limit) <==>
      exists i: nat :: InReachAt(links, scope, anchor, Max(limit, 1), i) && links[i] == l
  {
    var all, kept := AllowedLinks(links, scope, anchor), FilteredLinks(links, scope, anchor, limit);
    assert links[..|links|] == links;
    if l in kept {
      var k: nat :| k < |kept| && kept[k] == l;
      var i := AllowedAt(links, scope, anchor, k, |links|);
      assert InReachAt(links, scope, anchor, Max(limit, 1), i);
    }
    forall i: nat | InReachAt(links, scope, anchor, Max(limit, 1), i) && links[i] == l
      ensures l in kept
    {
      AllowedCount(links, scope, anchor, i);
      LinkAllowedIff(l, scope, anchor);
      AllowedLinksSnoc(links[..i], l, scope, anchor);
      AllowedLinksPrefix(links[..i] + [l], links[i + 1..], scope, anchor);
      assert links == links[..i] + [l] + links[i + 1..];
      assert all[|AllowedLinks(links[..i], scope, anchor)|] == l;
      assert kept[|AllowedLinks(links[..i], scope, anchor)|] == l;
    }
  }

  /** The loop that collects allowed links and stops once the page limit is reached. */
  method FilterDiscoveredUrls(links: seq<Link>, scope: Scope, anchor: Option<string>, limit: nat)
    returns (filtered: seq<Link>)
    ensures filtered == FilteredLinks(links, scope, anchor, limit)
  {
    if links == [] {
      return [];
    }
    filtered := [];
    var i := 0;
    while i < |links|
      invariant 0 <= i <= |links|
      invariant filtered == AllowedLinks(links[..i], scope, anchor)
      invariant filtered == [] || |filtered| < limit
    {
      assert links[..i + 1] == links[..i] + [links[i]];
      AllowedLinksSnoc(links[..i], links[i], scope, anchor);
      if LinkAllowed(links[i], scope, anchor) {
        filtered := filtered + [links[i]];
        if |filtered| >= limit {
          AllowedLinksPrefix(links[..i + 1], links[i + 1..], scope, anchor);
          assert links == links[..i + 1] + links[i + 1..];
          return;
        }
      }
      i := i + 1;
    }
    assert links[..i] == links;
  }
}
