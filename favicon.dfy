/** The favicon resolver (src/js/FaviconLoader.js): normalise a URL to a
    domain, look the (domain, size) pair up in an in-memory cache, otherwise
    probe six candidate icon URLs in a fixed order and keep the first that
    loads; when none does, answer a built-in default icon that is never
    cached.

    Browser services are abstracted: `new URL(url).hostname` is the
    function `hostOf` given to the constructor (None when the URL does not
    parse), and the image probe is a method whose answer is unconstrained. */
module Favicon {
  import opened Wrappers
  import opened Text
  import opened Records

  /** The `size = 32` default of getFaviconUrl and loadFaviconSmart. */
  const DefaultSize: int := 32

  /** The number of candidate generators. */
  const SourceCount: nat := 6

  /** The i-th candidate generator, in probe order. Only the first uses
      the size. */
  function Source(i: nat, domain: string, size: int): string
    requires i < SourceCount
  {
    "https://" + SourcePath(i, domain, size)
  }

  /** What follows the scheme in the i-th candidate. */
  function SourcePath(i: nat, domain: string, size: int): string
    requires i < SourceCount
  {
    if i == 0 then GooglePath(domain) + IntToString(size)
    else if i == 1 then "icons.duckduckgo.com/ip3/" + domain + ".ico"
    else if i == 2 then "favicon.yandex.net/favicon/" + domain
    else if i == 3 then domain + "/favicon.ico"
    else if i == 4 then domain + "/favicon.png"
    else domain + "/apple-touch-icon.png"
  }

  function GooglePath(domain: string): string {
    "www.google.com/s2/favicons?domain=" + domain + "&sz="
  }

  const SvgDataPrefix: string := "data:image/svg+xml,"

  lemma PrefixOfConcat(a: string, b: string)
    ensures StartsWith(a + b, a)
  {
    assert (a + b)[..|a|] == a;
  }

  /** `encodeURIComponent` of the default icon's SVG markup (a grey disc
      with a dot), written out. Callers learn nothing about the text beyond
      its being a string. */
  method EncodedDefaultSvg() returns (encoded: string)
  {
    encoded := "%0A%20%20%20%20%20%20%3Csvg%20xmlns%3D%22http%3A%2F%2Fwww.w3.org%2F2000%2Fsvg%22%20viewBox%3D%220%200%2024%2024%22%20fill%3D%22none%22%3E%0A%20%20%20%20%20%20%20%20%3Ccircle%20cx%3D%2212%22%20cy%3D%2212%22%20r%3D%2210%22%20stroke%3D%22%23666%22%20stroke-width%3D%221.5%22%20fill%3D%22%23333%22%2F%3E%0A%20%20%20%20%20%20%20%20%3Ccircle%20cx%3D%2212%22%20cy%3D%2212%22%20r%3D%223%22%20fill%3D%22%23666%22%2F%3E%0A%20%20%20%20%20%20%3C%2Fsvg%3E%0A%20%20%20%20";
  }

  /** createDefaultIcon: the encoded SVG behind a data-URL header. */
  method CreateDefaultIcon() returns (icon: string)
    ensures StartsWith(icon, SvgDataPrefix)
  {
    var encoded := EncodedDefaultSvg();
    PrefixOfConcat(SvgDataPrefix, encoded);
    icon := SvgDataPrefix + encoded;
  }

  /** A candidate URL generator: (domain, size) to URL. */
  type Generator = (string, int) -> string

  /** The loader's `faviconSources` array. */
  function FaviconSources(): (sources: seq<Generator>)
    ensures |sources| == SourceCount
    ensures forall i, d, s :: 0 <= i < SourceCount ==> sources[i](d, s) == Source(i, d, s)
  {
    [ (d: string, s: int) => Source(0, d, s),
      (d: string, s: int) => Source(1, d, s),
      (d: string, s: int) => Source(2, d, s),
      (d: string, s: int) => Source(3, d, s),
      (d: string, s: int) => Source(4, d, s),
      (d: string, s: int) => Source(5, d, s) ]
  }

  /** `v` is what one of the generators makes of (domain, size). */
  ghost predicate IsCandidate(sources: seq<Generator>, domain: string, size: int, v: string) {
    exists i :: 0 <= i < |sources| && v == sources[i](domain, size)
  }

  /** Six generators; all but the first ignore the size, and the first tells
      sizes apart. */
  lemma SourcesAndSize(domain: string, size1: int, size2: int)
    ensures SourceCount == 6
    ensures forall i :: 1 <= i < 6 ==> Source(i, domain, size1) == Source(i, domain, size2)
    ensures Source(0, domain, size1) == Source(0, domain, size2) ==> size1 == size2
  {
    if Source(0, domain, size1) == Source(0, domain, size2) {
      SuffixOfEqual("https://", SourcePath(0, domain, size1), SourcePath(0, domain, size2));
      SuffixOfEqual(GooglePath(domain), IntToString(size1), IntToString(size2));
      IntToStringInjective(size1, size2);
    }
  }

  lemma SuffixOfEqual(prefix: string, a: string, b: string)
    requires prefix + a == prefix + b
    ensures a == b
  {
    assert a == (prefix + a)[|prefix|..];
    assert b == (prefix + b)[|prefix|..];
  }

  /** Every candidate is an https URL, so none of them is an SVG data URL
      such as the default icon. */
  lemma CandidatesAreNotSvgData(domain: string, size: int, i: nat, icon: string)
    requires i < SourceCount && StartsWith(icon, SvgDataPrefix)
    ensures StartsWith(Source(i, domain, size), "https://")
    ensures Source(i, domain, size) != icon
  {
    var v := Source(i, domain, size);
    assert v[..8] == "https://";
    assert v[0] == 'h' && icon[0] == 'd';
  }

  /** The regular expression `^https?:\/\/` removed from the front. */
  function WithoutScheme(url: string): (rest: string)
    ensures StartsWith(url, "https://") ==> rest == url[8..]
    ensures StartsWith(url, "http://") ==> rest == url[7..]
    ensures !StartsWith(url, "https://") && !StartsWith(url, "http://") ==> rest == url
  {
    SchemesExclusive(url);
    if StartsWith(url, "https://") then url[8..]
    else if StartsWith(url, "http://") then url[7..]
    else url
  }

  lemma SchemesExclusive(url: string)
    ensures StartsWith(url, "https://") ==> !StartsWith(url, "http://")
  {
    if StartsWith(url, "https://") {
      assert url[4] == "https://"[4] == 's' != "http://"[4];
    }
  }

  /** `s.split("/")[0]`: the text before the first slash. */
  function BeforeSlash(s: string): (r: string)
    ensures '/' !in r && StartsWith(s, r)
    ensures |r| == |s| || s[|r|] == '/'
  {
    if s == [] || s[0] == '/' then []
    else
      var r := [s[0]] + BeforeSlash(s[1..]);
      assert s[..|r|] == [s[0]] + s[1..][..|r| - 1];
      r
  }

  /** extractDomain, given what `new URL(url).hostname` yields (None when
      the constructor throws). A parsed hostname loses one leading "www.";
      the fallback strips a scheme and a path but keeps "www.". */
  function ExtractDomain(url: string, host: Option<string>): (domain: string)
    ensures host.Some? && StartsWith(host.value, "www.") ==> "www." + domain == host.value
    ensures host.Some? && !StartsWith(host.value, "www.") ==> domain == host.value
    ensures host.None? ==>
      var rest := WithoutScheme(url);
      '/' !in domain && StartsWith(rest, domain) && (|domain| == |rest| || rest[|domain|] == '/')
  {
    match host
    case Some(hostname) =>
      if StartsWith(hostname, "www.") then
        assert hostname == hostname[..4] + hostname[4..];
        hostname[4..]
      else hostname
    case None => BeforeSlash(WithoutScheme(url))
  }

  /** The text before the first slash is exactly the slash-free head. */
  lemma BeforeSlashOf(head: string, tail: string)
    requires '/' !in head && (tail == [] || tail[0] == '/')
    ensures BeforeSlash(head + tail) == head
  {
    var s := head + tail;
    var r := BeforeSlash(s);
    assert forall i :: 0 <= i < |head| ==> s[i] == head[i] && head[i] in head;
    assert |r| >= |head|;
    assert r == s[..|head|] == head;
  }

  /** Only one "www." goes. */
  lemma OneWwwStripped()
    ensures ExtractDomain("https://www.www.example.com/", Some("www.www.example.com")) == "www.example.com"
  {
  }

  /** Text that is not a URL is taken up to its first slash, so a leading
      "www." stays; an "http://" in front of such text makes no difference. */
  lemma FallbackKeepsHost(host: string, path: string)
    requires '/' !in host && (path == [] || path[0] == '/')
    requires !StartsWith(host + path, "https://") && !StartsWith(host + path, "http://")
    ensures ExtractDomain(host + path, None) == host
    ensures ExtractDomain("http://" + host + path, None) == host
  {
    BeforeSlashOf(host, path);
    var text := "http://" + host + path;
    assert text[..7] == "http://" && text[7..] == host + path;
    SchemesExclusive(text);
  }

  /** The cache key `${domain}_${size}`. */
  function CacheKey(domain: string, size: int): string {
    domain + "_" + IntToString(size)
  }

  /** A key names one (domain, size) pair: the size text has no underscore,
      so the last underscore splits the key. */
  lemma CacheKeyInjective(d1: string, s1: int, d2: string, s2: int)
    requires CacheKey(d1, s1) == CacheKey(d2, s2)
    ensures d1 == d2 && s1 == s2
  {
    var t1, t2 := IntToString(s1), IntToString(s2);
    var k := CacheKey(d1, s1);
    SizeTextHasNoUnderscore(s1);
    SizeTextHasNoUnderscore(s2);
    LastUnderscore(d1, t1);
    LastUnderscore(d2, t2);
    assert |d1| == |d2|;
    assert d1 == k[..|d1|] == d2;
    assert t1 == k[|d1| + 1..] == t2;
    IntToStringInjective(s1, s2);
  }

  lemma SizeTextHasNoUnderscore(size: int)
    ensures '_' !in IntToString(size)
  {
    var t := IntToString(size);
    assert forall i :: 0 <= i < |t| ==> t[i] == '-' || IsDigit(t[i]);
  }

  /** In `d + "_" + t` with no underscore in `t`, the last underscore sits
      right after `d`. */
  lemma LastUnderscore(d: string, t: string)
    requires '_' !in t
    ensures (d + "_" + t)[|d|] == '_'
    ensures forall i :: |d| < i < |d + "_" + t| ==> (d + "_" + t)[i] != '_'
  {
    var k := d + "_" + t;
    forall i | |d| < i < |k| ensures k[i] != '_' {
      assert k[i] == t[i - |d| - 1];
    }
  }

  /** With a URL parser, "https://www.example.com/page" and
      "https://example.com/other" share the key "example.com_32". */
  lemma WwwAndBareShareKey(u1: string, u2: string)
    ensures CacheKey(ExtractDomain(u1, Some("www.example.com")), DefaultSize) == "example.com_32"
    ensures CacheKey(ExtractDomain(u2, Some("example.com")), DefaultSize) == "example.com_32"
  {
    assert IntToString(32) == NatToString(3) + [DigitChar(2)] == "32";
    assert "example.com"[0] != "www."[0];
  }

  /** getSpecialCaseFavicon: the hand-picked icon of ten known domains,
      every one an https URL. */
  function SpecialCaseFavicon(domain: string): (r: Option<string>)
    ensures r.Some? ==> StartsWith(r.value, "https://")
  {
    match SpecialCasePath(domain)
    case Some(path) =>
      PrefixOfConcat("https://", path);
      Some("https://" + path)
    case None => None
  }

  /** The table of getSpecialCaseFavicon, each icon written after its
      "https://" scheme. */
  function SpecialCasePath(domain: string): Option<string> {
    match domain
    case "youtube.com" => Some("www.youtube.com/favicon.ico")
    case "google.com" => Some("www.google.com/favicon.ico")
    case "github.com" => Some("github.com/favicon.ico")
    case "stackoverflow.com" => Some("stackoverflow.com/favicon.ico")
    case "reddit.com" => Some("www.reddit.com/favicon.ico")
    case "clashofclans.fandom.com" => Some("static.wikia.nocookie.net/clashofclans/images/6/64/Favicon.ico")
    case "maps.google.com" => Some("maps.google.com/favicon.ico")
    case "accounts.google.com" => Some("accounts.google.com/favicon.ico")
    case "gmail.com" => Some("ssl.gstatic.com/ui/v1/icons/mail/rfr/gmail.ico")
    case "icicibank.com" => Some("www.icicibank.com/favicon.ico")
    case _ => None
  }

  /** The github.com entry is the very URL the fourth generator makes, a
      "www." host is not special, and an unknown domain has no entry. */
  lemma SpecialCasesTable(size: int)
    ensures SpecialCaseFavicon("github.com") == Some(Source(3, "github.com", size))
    ensures SpecialCaseFavicon("www.github.com") == None
    ensures SpecialCaseFavicon("example.com") == None
  {
    assert "github.com/favicon.ico" == "github.com" + "/favicon.ico";
  }

  // One resolution, as a relation between the states before and after.

  /** `run` is the probes one uncached resolution makes: candidates in
      order, every one before the last failing, the last succeeding and
      answered, or all six failing and the default answered. */
  ghost predicate ProbeRun(sources: seq<Generator>, domain: string, size: int, fallback: string,
                          run: seq<(string, bool)>, icon: string) {
    && 1 <= |run| <= |sources|
    && (forall j :: 0 <= j < |run| ==> run[j].0 == sources[j](domain, size))
    && (forall j :: 0 <= j < |run| - 1 ==> !run[j].1)
    && (if run[|run| - 1].1 then icon == run[|run| - 1].0
        else |run| == |sources| && icon == fallback)
  }

  /** A run that has failed on every candidate so far ends with one more
      probe: a success answers that candidate, a failure of the sixth the
      fallback. */
  lemma ProbeRunStep(sources: seq<Generator>, domain: string, size: int, fallback: string,
                     failed: seq<(string, bool)>, ok: bool, icon: string)
    requires |failed| < |sources|
    requires forall j :: 0 <= j < |failed| ==> failed[j] == (sources[j](domain, size), false)
    requires ok ==> icon == sources[|failed|](domain, size)
    requires !ok ==> |failed| + 1 == |sources| && icon == fallback
    ensures ProbeRun(sources, domain, size, fallback, failed + [(sources[|failed|](domain, size), ok)], icon)
  {
  }

  /** The index of the first passing probe, stated independently. */
  function FirstPassing(answers: seq<bool>): (r: Option<nat>)
    ensures r.Some? ==> r.value < |answers| && answers[r.value] && forall j :: 0 <= j < r.value ==> !answers[j]
    ensures r.None? ==> forall j :: 0 <= j < |answers| ==> !answers[j]
  {
    if answers == [] then None
    else if answers[0] then Some(0)
    else match FirstPassing(answers[1..])
      case None => None
      case Some(i) => Some(i + 1)
  }

  function Answers(run: seq<(string, bool)>): (answers: seq<bool>)
    ensures |answers| == |run| && forall j :: 0 <= j < |run| ==> answers[j] == run[j].1
  {
    seq(|run|, j requires 0 <= j < |run| => run[j].1)
  }

  /** The first success wins: the icon is the candidate at the first passing
      probe, or the default when no probe passed. */
  lemma ProbeRunPicksFirstSuccess(sources: seq<Generator>, domain: string, size: int, fallback: string,
                                  run: seq<(string, bool)>, icon: string)
    requires ProbeRun(sources, domain, size, fallback, run, icon)
    ensures match FirstPassing(Answers(run))
      case Some(i) => i == |run| - 1 && icon == sources[i](domain, size)
      case None => |run| == |sources| && icon == fallback
  {
    var answers := Answers(run);
    var last := |run| - 1;
    match FirstPassing(answers)
    case Some(i) =>
      assert run[i].1;
    case None =>
      assert !answers[last];
  }

  /** One call of getFaviconUrl, from the state (cache0, order0, probes0) to
      (cache1, order1, probes1), for the key of (domain, size). A hit
      answers the cached value and probes nothing; a miss makes a probe run
      and caches its result unless that is the default. */
  ghost predicate Resolution(
    cache0: map<string, string>, order0: seq<string>, probes0: seq<(string, bool)>,
    cache1: map<string, string>, order1: seq<string>, probes1: seq<(string, bool)>,
    sources: seq<Generator>, domain: string, size: int, fallback: string, icon: string)
  {
    var key := CacheKey(domain, size);
    if key in cache0 then
      icon == cache0[key] && cache1 == cache0 && order1 == order0 && probes1 == probes0
    else
      && |probes0| <= |probes1| && probes1[..|probes0|] == probes0
      && ProbeRun(sources, domain, size, fallback, probes1[|probes0|..], icon)
      && (if icon == fallback then cache1 == cache0 && order1 == order0
          else cache1 == cache0[key := icon] && order1 == order0 + [key])
  }

  lemma HitResolves(cache: map<string, string>, order: seq<string>, probes: seq<(string, bool)>,
                    sources: seq<Generator>, domain: string, size: int, fallback: string)
    requires CacheKey(domain, size) in cache
    ensures Resolution(cache, order, probes, cache, order, probes, sources, domain, size, fallback,
                       cache[CacheKey(domain, size)])
  {
  }

  lemma MissResolves(cache: map<string, string>, order: seq<string>, probes: seq<(string, bool)>,
                     run: seq<(string, bool)>, sources: seq<Generator>, domain: string, size: int,
                     fallback: string, icon: string)
    requires CacheKey(domain, size) !in cache
    requires ProbeRun(sources, domain, size, fallback, run, icon)
    ensures var key := CacheKey(domain, size);
      Resolution(cache, order, probes,
                 if icon == fallback then cache else cache[key := icon],
                 if icon == fallback then order else order + [key],
                 probes + run, sources, domain, size, fallback, icon)
  {
    assert (probes + run)[..|probes|] == probes;
    assert (probes + run)[|probes|..] == run;
  }

  /** The cache holds only what a generator made of the (domain, size)
      its key was built from (`origin` records which one), and
      `order` lists its keys once each, in insertion order. */
  ghost predicate CacheInvariant(cache: map<string, string>, order: seq<string>,
                                 origin: map<string, (string, int, nat)>, sources: seq<Generator>)
  {
    && origin.Keys == cache.Keys
    && (forall k :: k in cache ==>
          var (d, s, i) := origin[k];
          i < |sources| && k == CacheKey(d, s) && cache[k] == sources[i](d, s))
    && (forall k :: k in cache <==> k in order)
    && Distinct(order)
  }

  /** A cached value is what some generator made of the very domain and
      size being looked up. */
  lemma CachedIsCandidate(cache: map<string, string>, order: seq<string>,
                          origin: map<string, (string, int, nat)>, sources: seq<Generator>,
                          domain: string, size: int)
    requires CacheInvariant(cache, order, origin, sources)
    requires CacheKey(domain, size) in cache
    ensures IsCandidate(sources, domain, size, cache[CacheKey(domain, size)])
  {
    var (d, s, i) := origin[CacheKey(domain, size)];
    CacheKeyInjective(d, s, domain, size);
  }

  /** Caching a generator's answer under a fresh key keeps the invariant. */
  lemma CacheInsertKeeps(cache: map<string, string>, order: seq<string>,
                         origin: map<string, (string, int, nat)>, sources: seq<Generator>,
                         domain: string, size: int, i: nat)
    requires CacheInvariant(cache, order, origin, sources)
    requires CacheKey(domain, size) !in cache && i < |sources|
    ensures var key := CacheKey(domain, size);
      CacheInvariant(cache[key := sources[i](domain, size)], order + [key],
                     origin[key := (domain, size, i)], sources)
  {
    var key := CacheKey(domain, size);
    var order1 := order + [key];
    forall a, b | 0 <= a < b < |order1|
      ensures order1[a] != order1[b]
    {
      if b == |order| {
        assert order1[a] == order[a];
      }
    }
  }

  /** What loadFaviconSmart does, given the hand-picked icon of the
      domain (if any): a known icon whose probe loads is answered as is with
      the cache untouched; otherwise, after that one failed probe, the
      domain is resolved as getFaviconUrl does. */
  ghost predicate SmartResolution(
    special: Option<string>,
    cache0: map<string, string>, order0: seq<string>, probes0: seq<(string, bool)>,
    cache1: map<string, string>, order1: seq<string>, probes1: seq<(string, bool)>,
    sources: seq<Generator>, domain: string, size: int, fallback: string, icon: string)
  {
    match special
    case None =>
      Resolution(cache0, order0, probes0, cache1, order1, probes1, sources, domain, size, fallback, icon)
    case Some(known) =>
      || (icon == known && probes1 == probes0 + [(known, true)] && cache1 == cache0 && order1 == order0)
      || Resolution(cache0, order0, probes0 + [(known, false)], cache1, order1, probes1,
                    sources, domain, size, fallback, icon)
  }

  predicate Distinct(s: seq<string>) {
    forall i, j :: 0 <= i < j < |s| ==> s[i] != s[j]
  }

  lemma {:induction false} DistinctCount(s: seq<string>)
    requires Distinct(s)
    ensures |set x | x in s| == |s|
  {
    if s != [] {
      var rest := s[1..];
      assert Distinct(rest) by {
        forall i, j | 0 <= i < j < |rest| ensures rest[i] != rest[j] {
          assert rest[i] == s[i + 1] && rest[j] == s[j + 1];
        }
      }
      DistinctCount(rest);
      assert (set x | x in s) == {s[0]} + (set x | x in rest);
      assert s[0] !in rest;
    }
  }

  datatype CacheStats = CacheStats(size: nat, entries: seq<string>)

  class FaviconLoader {
    /** `new URL(url).hostname`, or None when that throws. */
    const hostOf: string -> Option<string>
    const faviconSources: seq<Generator>
    const defaultIcon: string
    /** The Map faviconCache, and the insertion order of its keys. */
    var faviconCache: map<string, string>
    var cacheOrder: seq<string>
    /** For each key, the domain, size and generator index it was filled from. */
    ghost var origin: map<string, (string, int, nat)>
    /** Every probe made so far and its answer. */
    ghost var probes: seq<(string, bool)>

    ghost predicate Valid()
      reads this
    {
      && |faviconSources| == SourceCount
      && StartsWith(defaultIcon, SvgDataPrefix)
      && (forall i, d, s :: 0 <= i < |faviconSources| ==> StartsWith(faviconSources[i](d, s), "https://"))
      && (forall i, d, s :: 0 <= i < |faviconSources| ==> faviconSources[i](d, s) != defaultIcon)
      && CacheInvariant(faviconCache, cacheOrder, origin, faviconSources)
    }

    function Domain(url: string): string {
      ExtractDomain(url, hostOf(url))
    }

    constructor (hostOf: string -> Option<string>)
      ensures Valid() && this.hostOf == hostOf && faviconSources == FaviconSources()
      ensures StartsWith(defaultIcon, SvgDataPrefix)
      ensures faviconCache == map[] && cacheOrder == [] && probes == []
    {
      this.hostOf := hostOf;
      faviconSources := FaviconSources();
      var icon := CreateDefaultIcon();
      defaultIcon := icon;
      forall i, d, s | 0 <= i < SourceCount
        ensures StartsWith(FaviconSources()[i](d, s), "https://") && FaviconSources()[i](d, s) != icon
      {
        CandidatesAreNotSvgData(d, s, i, icon);
      }
      faviconCache, cacheOrder := map[], [];
      origin, probes := map[], [];
    }

    /** testFaviconUrl: whether the image loads with a positive size within
        3000 ms. The answer is not constrained; the probe is recorded. */
    method TestFaviconUrl(faviconUrl: string) returns (ok: bool)
      modifies this`probes
      ensures probes == old(probes) + [(faviconUrl, ok)]
    {
      ok :| true;
      probes := probes + [(faviconUrl, ok)];
    }

    /** The loop of getFaviconUrl: probe the generators' URLs in order and
        stop at the first that loads. Answers the index of that generator,
        or None (and the default icon) when all six fail. */
    method ProbeSources(domain: string, size: int) returns (icon: string, found: Option<nat>, ghost run: seq<(string, bool)>)
      requires |faviconSources| == SourceCount
      modifies this`probes
      ensures probes == old(probes) + run
      ensures ProbeRun(faviconSources, domain, size, defaultIcon, run, icon)
      ensures found.Some? ==> found.value < |faviconSources| && icon == faviconSources[found.value](domain, size)
      ensures found.None? ==> icon == defaultIcon
    {
      run := [];
      var i := 0;
      while i < |faviconSources|
        invariant 0 <= i <= |faviconSources| && |run| == i
        invariant probes == old(probes) + run
        invariant forall j :: 0 <= j < i ==> run[j] == (faviconSources[j](domain, size), false)
      {
        var candidate := faviconSources[i](domain, size);
        var ok := TestFaviconUrl(candidate);
        if ok {
          ProbeRunStep(faviconSources, domain, size, defaultIcon, run, true, candidate);
          run := run + [(candidate, ok)];
          return candidate, Some(i), run;
        }
        run := run + [(candidate, ok)];
        i := i + 1;
      }
      icon, found := defaultIcon, None;
      ProbeRunStep(faviconSources, domain, size, defaultIcon, run[..i - 1], false, icon);
      assert run == run[..i - 1] + [(faviconSources[i - 1](domain, size), false)];
    }

    /** getFaviconUrl: a cache hit answers without probing; otherwise the
        first generator URL that loads is cached and answered, and when none
        does the default icon is answered and nothing is cached. */
    method GetFaviconUrl(url: string, size: int) returns (icon: string)
      requires Valid()
      modifies this
      ensures Valid()
      ensures Resolution(old(faviconCache), old(cacheOrder), old(probes), faviconCache, cacheOrder, probes,
                         faviconSources, Domain(url), size, defaultIcon, icon)
      ensures icon == defaultIcon || IsCandidate(faviconSources, Domain(url), size, icon)
      ensures CacheKey(Domain(url), size) in faviconCache <==> icon != defaultIcon
      ensures icon != defaultIcon ==> faviconCache[CacheKey(Domain(url), size)] == icon
      ensures |icon| > 0
    {
      var domain := Domain(url);
      var cacheKey := CacheKey(domain, size);
      if cacheKey in faviconCache {
        icon := faviconCache[cacheKey];
        CachedIsCandidate(faviconCache, cacheOrder, origin, faviconSources, domain, size);
        HitResolves(faviconCache, cacheOrder, probes, faviconSources, domain, size, defaultIcon);
        return;
      }
      ghost var start := probes;
      var found;
      ghost var run;
      icon, found, run := ProbeSources(domain, size);
      MissResolves(faviconCache, cacheOrder, start, run, faviconSources, domain, size, defaultIcon, icon);
      if found.Some? {
        CacheInsertKeeps(faviconCache, cacheOrder, origin, faviconSources, domain, size, found.value);
        faviconCache := faviconCache[cacheKey := icon];
        cacheOrder := cacheOrder + [cacheKey];
        origin := origin[cacheKey := (domain, size, found.value)];
      }
    }

    /** loadFaviconSmart: a known domain's hand-picked icon when its probe
        passes (the cache is not touched), otherwise getFaviconUrl. */
    method LoadFaviconSmart(url: string, size: int) returns (icon: string)
      requires Valid()
      modifies this
      ensures Valid()
      ensures SmartResolution(SpecialCaseFavicon(Domain(url)),
                              old(faviconCache), old(cacheOrder), old(probes), faviconCache, cacheOrder, probes,
                              faviconSources, Domain(url), size, defaultIcon, icon)
      ensures |icon| > 0
    {
      var domain := Domain(url);
      var hit := TrySpecialCase(domain);
      if hit.Some? {
        return hit.value;
      }
      icon := GetFaviconUrl(url, size);
    }

    /** The first step of loadFaviconSmart: probe the hand-picked icon of a
        known domain, if there is one. */
    method TrySpecialCase(domain: string) returns (hit: Option<string>)
      modifies this`probes
      ensures SpecialCaseFavicon(domain).None? ==> hit.None? && probes == old(probes)
      ensures SpecialCaseFavicon(domain).Some? ==>
        && probes == old(probes) + [(SpecialCaseFavicon(domain).value, hit.Some?)]
        && (hit.Some? ==> hit == SpecialCaseFavicon(domain))
    {
      var specialCase := SpecialCaseFavicon(domain);
      hit := None;
      if specialCase.Some? {
        var ok := TestFaviconUrl(specialCase.value);
        if ok {
          hit := specialCase;
        }
      }
    }

    /** preloadFavicons, one bookmark after another: every record comes back
        in place with its `favicon` set to what getFaviconUrl answers for
        its url at the default size. */
    method PreloadFavicons(bookmarks: seq<Bookmark>) returns (result: seq<Bookmark>)
      requires Valid()
      modifies this
      ensures Valid()
      ensures |result| == |bookmarks|
      ensures forall i :: 0 <= i < |result| ==>
        && result[i].favicon.Some? && |result[i].favicon.value| > 0
        && result[i] == bookmarks[i].(favicon := result[i].favicon)
        && (result[i].favicon.value == defaultIcon
            || IsCandidate(faviconSources, Domain(bookmarks[i].url), DefaultSize, result[i].favicon.value))
    {
      result := [];
      var i := 0;
      while i < |bookmarks|
        invariant 0 <= i <= |bookmarks| && |result| == i
        invariant Valid()
        invariant forall j :: 0 <= j < i ==>
          && result[j].favicon.Some? && |result[j].favicon.value| > 0
          && result[j] == bookmarks[j].(favicon := result[j].favicon)
          && (result[j].favicon.value == defaultIcon
              || IsCandidate(faviconSources, Domain(bookmarks[j].url), DefaultSize, result[j].favicon.value))
      {
        var faviconUrl := GetFaviconUrl(bookmarks[i].url, DefaultSize);
        result := result + [bookmarks[i].(favicon := Some(faviconUrl))];
        i := i + 1;
      }
    }

    /** clearCache. */
    method ClearCache()
      requires Valid()
      modifies this`faviconCache, this`cacheOrder, this`origin
      ensures Valid()
      ensures faviconCache == map[] && cacheOrder == []
    {
      faviconCache, cacheOrder := map[], [];
      origin := map[];
    }

    /** getCacheStats: the number of cached keys and the keys themselves, in
        insertion order. */
    function GetCacheStats(): (stats: CacheStats)
      requires Valid()
      reads this
      ensures stats.size == |faviconCache| && |stats.entries| == stats.size
      ensures forall k :: k in stats.entries <==> k in faviconCache
      ensures stats.entries == cacheOrder
    {
      DistinctCount(cacheOrder);
      assert faviconCache.Keys == set x | x in cacheOrder;
      CacheStats(|faviconCache|, cacheOrder)
    }
  }

  /** Resolving the same URL twice: after a success the second call answers
      the same icon from the cache without probing; after the default it
      probes again. */
  method ResolveTwice(loader: FaviconLoader, url: string, size: int)
    returns (first: string, second: string, ghost probesBetween: seq<(string, bool)>)
    requires loader.Valid()
    modifies loader
    ensures first != loader.defaultIcon ==> second == first && loader.probes == probesBetween
    ensures first == loader.defaultIcon ==> |loader.probes| > |probesBetween|
  {
    first := loader.GetFaviconUrl(url, size);
    probesBetween := loader.probes;
    second := loader.GetFaviconUrl(url, size);
    if first == loader.defaultIcon {
      assert CacheKey(loader.Domain(url), size) !in old(loader.faviconCache);
    }
  }
}
