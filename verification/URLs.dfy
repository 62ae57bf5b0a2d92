/** URLs a certificate names: which are followed and which endpoint they stand for. */
module URLs {
  import opened Common

  function LowerChar(c: char): char {
    if 'A' <= c <= 'Z' then c - 'A' + 'a' else c
  }

  function Lower(s: string): (r: string)
    ensures |r| == |s| && forall i :: 0 <= i < |s| ==> r[i] == LowerChar(s[i])
  {
    seq(|s|, i requires 0 <= i < |s| => LowerChar(s[i]))
  }

  predicate IsHttp(url: string) {
    "http://" <= Lower(url) || "https://" <= Lower(url)
  }

  /** The http(s) URLs of a list, in order. */
  function HttpOnly(urls: seq<string>): seq<string> {
    if urls == [] then []
    else (if IsHttp(urls[0]) then [urls[0]] else []) + HttpOnly(urls[1..])
  }

  function FirstUsable(urls: seq<string>, max: nat): (r: seq<string>)
    ensures |r| <= max && forall u :: u in r ==> u in urls && IsHttp(u)
    decreases |urls|
  {
    if urls == [] || max == 0 then []
    else if IsHttp(urls[0]) then [urls[0]] + FirstUsable(urls[1..], max - 1)
    else FirstUsable(urls[1..], max)
  }

  function FirstOf(urls: seq<string>, max: nat): seq<string> {
    if max < |urls| then urls[..max] else urls
  }

  lemma FirstOfCons(url: string, rest: seq<string>, max: nat)
    requires max > 0
    ensures FirstOf([url] + rest, max) == [url] + FirstOf(rest, max - 1)
  {
  }

  /** FirstUsable is the first max of the http(s) URLs, none skipped. */
  lemma {:induction false} FirstUsableIsPrefix(urls: seq<string>, max: nat)
    ensures FirstUsable(urls, max) == FirstOf(HttpOnly(urls), max)
  {
    if urls != [] && max > 0 {
      FirstUsableIsPrefix(urls[1..], if IsHttp(urls[0]) then max - 1 else max);
      if IsHttp(urls[0]) { FirstOfCons(urls[0], HttpOnly(urls[1..]), max); }
    }
  }

  lemma {:induction false} FirstUsableStep(done: seq<string>, url: string, max: nat)
    ensures FirstUsable(done + [url], max) ==
      FirstUsable(done, max) + if |FirstUsable(done, max)| < max && IsHttp(url) then [url] else []
  {
    if done == [] || max == 0 {
      assert done + [url] == [url] || max == 0;
    } else {
      assert (done + [url])[1..] == done[1..] + [url];
      FirstUsableStep(done[1..], url, if IsHttp(done[0]) then max - 1 else max);
    }
  }

  lemma {:induction false} FirstUsableFull(done: seq<string>, rest: seq<string>, max: nat)
    requires |FirstUsable(done, max)| == max
    ensures FirstUsable(done + rest, max) == FirstUsable(done, max)
    decreases |rest|
  {
    if rest == [] {
      assert done + rest == done;
    } else {
      FirstUsableStep(done, rest[0], max);
      assert done + rest == (done + [rest[0]]) + rest[1..];
      FirstUsableFull(done + [rest[0]], rest[1..], max);
    }
  }

  method UsableURLs(urls: seq<string>, max: nat) returns (out: seq<string>)
    ensures out == FirstUsable(urls, max)
  {
    out := [];
    for i := 0 to |urls|
      invariant out == FirstUsable(urls[..i], max)
    {
      if |out| == max {
        assert urls == urls[..i] + urls[i..];
        FirstUsableFull(urls[..i], urls[i..], max);
        return;
      }
      FirstUsableStep(urls[..i], urls[i], max);
      assert urls[..i + 1] == urls[..i] + [urls[i]];
      if IsHttp(urls[i]) { out := out + [urls[i]]; }
    }
    assert urls[..|urls|] == urls;
  }

  /** What the URL parser gives: an explicit port is never empty. */
  datatype ParsedURL = ParsedURL(scheme: string, hostname: string, port: string)

  function DefaultPort(scheme: string): string {
    if scheme == "http" then "80" else if scheme == "https" then "443" else ""
  }

  function JoinHostPort(host: string, port: string): string {
    if ':' in host then "[" + host + "]:" + port else host + ":" + port
  }

  /** scheme://host:port, or the text itself when it does not parse. */
  function Endpoint(parse: string -> Option<ParsedURL>, url: string): string {
    match parse(url)
    case None => url
    case Some(u) =>
      var scheme := Lower(u.scheme);
      scheme + "://" + JoinHostPort(Lower(u.hostname), if u.port == "" then DefaultPort(scheme) else u.port)
  }

  /** The port of a parsed URL, that of its scheme by default. */
  function PortOf(u: ParsedURL): string {
    if u.port != "" then u.port
    else if Lower(u.scheme) == "http" then "80"
    else if Lower(u.scheme) == "https" then "443"
    else ""
  }

  /** URLs of one scheme, host and port, in any case and with or without the default port, have one endpoint. */
  lemma SameEndpoint(parse: string -> Option<ParsedURL>, a: string, b: string)
    requires parse(a).Some? && parse(b).Some?
    requires
      var u, v := parse(a).value, parse(b).value;
      Lower(u.scheme) == Lower(v.scheme) && Lower(u.hostname) == Lower(v.hostname) && PortOf(u) == PortOf(v)
    ensures Endpoint(parse, a) == Endpoint(parse, b)
  {
  }

  const SEP: string := "://"

  /** What follows the first "://", if there is one. */
  function AfterScheme(s: string): Option<string> {
    if SEP <= s then Some(s[3..]) else if s == "" then None else AfterScheme(s[1..])
  }

  /** rest is what follows the first "://". */
  ghost predicate FollowsScheme(s: string, rest: string) {
    exists k: nat :: IsFirstSep(s, k) && rest == s[k + 3..]
  }

  ghost predicate IsFirstSep(s: string, k: nat) {
    k + 3 <= |s| && SEP <= s[k..] && forall j: nat :: j < k ==> !(SEP <= s[j..])
  }

  lemma {:induction false} AfterSchemeIs(s: string, rest: string)
    ensures AfterScheme(s) == Some(rest) <==> FollowsScheme(s, rest)
  {
    assert s != "" ==> s[0..] == s;
    if SEP <= s {
      assert IsFirstSep(s, 0);
    } else if s != "" {
      AfterSchemeIs(s[1..], rest);
      if k: nat :| IsFirstSep(s[1..], k) && rest == s[1..][k + 3..] {
        forall j: nat | j < k + 1 ensures !(SEP <= s[j..]) {
          if j > 0 { assert s[1..][j - 1..] == s[j..]; }
        }
        assert s[1..][k..] == s[k + 1..];
        assert IsFirstSep(s, k + 1);
      }
      if k: nat :| IsFirstSep(s, k) && rest == s[k + 3..] {
        assert s[1..][k - 1..] == s[k..];
        forall j: nat | j < k - 1 ensures !(SEP <= s[1..][j..]) { assert s[1..][j..] == s[j + 1..]; }
        assert IsFirstSep(s[1..], k - 1);
      }
    }
  }

  lemma {:induction false} SplitAt(prefix: string, rest: string)
    ensures AfterScheme(prefix + SEP + rest).Some?
  {
    var s := prefix + SEP + rest;
    if prefix == "" {
      assert s[..3] == SEP;
    } else if !(SEP <= s) {
      assert s[1..] == prefix[1..] + SEP + rest;
      SplitAt(prefix[1..], rest);
    }
  }

  lemma LowerPrefix(url: string, p: string)
    requires p <= Lower(url) && |p| >= 3 && p[|p| - 3..] == SEP
    ensures url == url[..|p| - 3] + SEP + url[|p|..]
  {
    var n := |p|;
    assert Lower(url)[..n] == p;
    forall k | n - 3 <= k < n ensures url[k] == p[k] {
      assert Lower(url)[k] == p[k] == p[n - 3..][k - (n - 3)];
    }
    assert url[n - 3..n] == p[n - 3..];
  }

  /** The endpoint of every followed URL has a "://" to split at. */
  lemma EndpointSplits(parse: string -> Option<ParsedURL>, urls: seq<string>, max: nat, url: string)
    requires url in FirstUsable(urls, max)
    ensures AfterScheme(Endpoint(parse, url)).Some?
  {
    match parse(url)
    case None =>
      if "http://" <= Lower(url) { LowerPrefix(url, "http://"); SplitAt(url[..4], url[7..]); }
      else { LowerPrefix(url, "https://"); SplitAt(url[..5], url[8..]); }
    case Some(u) =>
      var scheme := Lower(u.scheme);
      SplitAt(scheme, JoinHostPort(Lower(u.hostname), if u.port == "" then DefaultPort(scheme) else u.port));
  }
}
