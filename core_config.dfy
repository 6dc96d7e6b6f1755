/**
  Configuration of the `core` layer: endpoint, client and retry settings,
  the validity rules their `#[validate(...)]` attributes declare, the URL
  scheme rule, and the constructors and defaults.

  `Url::parse` is modelled by the part of it the scheme rule depends on.
  As in the basic URL parser of the WHATWG URL Standard, the input is first
  cleaned: leading and trailing C0 controls and spaces are trimmed and every
  ASCII tab or newline is removed. In the cleaned string a scheme is a letter
  followed by letters, digits, `+`, `-` or `.`, ended by `:`, and is compared
  in lower case; a string without one does not parse.
*/
module CoreConfig {
  import opened Base

  /** `validator::ValidationError`, known by its code. */
  datatype ValidationError = ValidationError(code: string)

  predicate IsAsciiAlpha(c: char) {
    'a' <= c <= 'z' || 'A' <= c <= 'Z'
  }

  predicate IsSchemeChar(c: char) {
    IsAsciiAlpha(c) || IsDigit(c) || c == '+' || c == '-' || c == '.'
  }

  function ToLower(c: char): char {
    if 'A' <= c <= 'Z' then (c as int - 'A' as int + 'a' as int) as char else c
  }

  function Lower(s: string): (r: string)
    ensures |r| == |s| && forall i :: 0 <= i < |s| ==> r[i] == ToLower(s[i])
  {
    seq(|s|, i requires 0 <= i < |s| => ToLower(s[i]))
  }

  /** How many scheme characters run from position `i`. */
  function SchemeRun(s: string, i: nat): (n: nat)
    requires i <= |s|
    ensures i + n <= |s|
    ensures forall j :: i <= j < i + n ==> IsSchemeChar(s[j])
    ensures i + n < |s| ==> !IsSchemeChar(s[i + n])
    decreases |s| - i
  {
    if i < |s| && IsSchemeChar(s[i]) then 1 + SchemeRun(s, i + 1) else 0
  }

  /** A C0 control (U+0000 to U+001F) or a space. */
  predicate IsC0OrSpace(c: char) {
    c <= ' '
  }

  /** An ASCII tab or newline: U+0009, U+000A or U+000D. */
  predicate IsTabOrNewline(c: char) {
    c == '\t' || c == '\n' || c == '\r'
  }

  /** The string without its leading C0 controls and spaces. */
  function TrimStart(s: string): (r: string)
    ensures |r| <= |s|
    ensures |r| > 0 ==> !IsC0OrSpace(r[0])
  {
    if |s| > 0 && IsC0OrSpace(s[0]) then TrimStart(s[1..]) else s
  }

  /** The string without its trailing C0 controls and spaces. */
  function TrimEnd(s: string): (r: string)
    ensures |r| <= |s|
    ensures |r| > 0 ==> !IsC0OrSpace(r[|r| - 1])
  {
    if |s| > 0 && IsC0OrSpace(s[|s| - 1]) then TrimEnd(s[..|s| - 1]) else s
  }

  /** The string with every ASCII tab and newline removed, the rest in order. */
  function RemoveTabNewline(s: string): (r: string)
    ensures |r| <= |s|
  {
    if |s| == 0 then []
    else (if IsTabOrNewline(s[0]) then [] else [s[0]]) + RemoveTabNewline(s[1..])
  }

  /** The input the URL parser actually scans. */
  function Clean(s: string): (r: string)
    ensures |r| <= |s|
    ensures forall i :: 0 <= i < |r| ==> !IsTabOrNewline(r[i])
    ensures |r| > 0 ==> !IsC0OrSpace(r[0]) && !IsC0OrSpace(r[|r| - 1])
  {
    var t := TrimEnd(TrimStart(s));
    TrimEndPrefix(TrimStart(s));
    RemoveKeepsEdges(t);
    RemoveLeavesNoTab(t);
    RemoveTabNewline(t)
  }

  /** What is left after trimming the end is a prefix of the string. */
  lemma {:induction false} TrimEndPrefix(s: string)
    ensures forall i :: 0 <= i < |TrimEnd(s)| ==> TrimEnd(s)[i] == s[i]
    decreases |s|
  {
    if |s| > 0 && IsC0OrSpace(s[|s| - 1]) {
      TrimEndPrefix(s[..|s| - 1]);
    }
  }

  /** A string of C0 controls and spaces trims to nothing. */
  lemma {:induction false} TrimStartAllSpace(s: string)
    requires forall i :: 0 <= i < |s| ==> IsC0OrSpace(s[i])
    ensures TrimStart(s) == []
    decreases |s|
  {
    if |s| > 0 {
      TrimStartAllSpace(s[1..]);
    }
  }

  /** If nothing is left after trimming the start, the string was all controls and spaces. */
  lemma {:induction false} TrimStartEmpty(s: string)
    requires TrimStart(s) == []
    ensures forall i :: 0 <= i < |s| ==> IsC0OrSpace(s[i])
    decreases |s|
  {
    if |s| > 0 {
      TrimStartEmpty(s[1..]);
      assert forall i :: 1 <= i < |s| ==> s[i] == s[1..][i - 1];
    }
  }

  /** No tab or newline survives their removal. */
  lemma {:induction false} RemoveLeavesNoTab(s: string)
    ensures forall i :: 0 <= i < |RemoveTabNewline(s)| ==> !IsTabOrNewline(RemoveTabNewline(s)[i])
    decreases |s|
  {
    if |s| > 0 {
      RemoveLeavesNoTab(s[1..]);
    }
  }

  /** The scheme at the start of an already cleaned string, lower-cased. */
  function SchemeOf(s: string): (r: Option<string>) {
    var n := SchemeRun(s, 0);
    if n > 0 && IsAsciiAlpha(s[0]) && n < |s| && s[n] == ':' then Some(Lower(s[..n])) else None
  }

  /** The scheme `Url::parse` finds, lower-cased, or `None` when the string does not parse. */
  function ParseScheme(s: string): (r: Option<string>)
    ensures r.Some? ==> |r.value| > 0 && 'a' <= r.value[0] <= 'z'
    ensures r.Some? ==> forall i :: 0 <= i < |r.value| ==> !('A' <= r.value[i] <= 'Z')
  {
    SchemeOfShape(Clean(s));
    SchemeOf(Clean(s))
  }

  /** A scheme found is a lower-case letter followed by characters none of which is upper case. */
  lemma SchemeOfShape(s: string)
    ensures SchemeOf(s).Some? ==> |SchemeOf(s).value| > 0 && 'a' <= SchemeOf(s).value[0] <= 'z'
    ensures SchemeOf(s).Some? ==> forall i :: 0 <= i < |SchemeOf(s).value| ==> !('A' <= SchemeOf(s).value[i] <= 'Z')
  {
  }

  /** Removing tabs and newlines keeps a first and a last character that are neither. */
  lemma {:induction false} RemoveKeepsEdges(s: string)
    ensures |s| > 0 && !IsTabOrNewline(s[0]) ==>
      |RemoveTabNewline(s)| > 0 && RemoveTabNewline(s)[0] == s[0]
    ensures |s| > 0 && !IsTabOrNewline(s[|s| - 1]) ==>
      |RemoveTabNewline(s)| > 0 && RemoveTabNewline(s)[|RemoveTabNewline(s)| - 1] == s[|s| - 1]
    decreases |s|
  {
    if |s| > 0 {
      RemoveKeepsEdges(s[1..]);
      if |s| > 1 {
        assert s[1..][|s[1..]| - 1] == s[|s| - 1];
      }
    }
  }

  /** `validate_url`: only the `http` and `https` schemes pass. */
  function ValidateUrl(url: string): (r: Result<(), ValidationError>)
    ensures r.Ok? <==> ParseScheme(url) == Some("http") || ParseScheme(url) == Some("https")
    ensures ParseScheme(url).None? ==> r == Err(ValidationError("invalid_url"))
    ensures ParseScheme(url).Some? && r.Err? ==> r == Err(ValidationError("invalid_scheme"))
  {
    match ParseScheme(url)
    case None => Err(ValidationError("invalid_url"))
    case Some(scheme) =>
      if scheme != "http" && scheme != "https" then Err(ValidationError("invalid_scheme")) else Ok(())
  }

  datatype EndpointConfig = EndpointConfig(
    url: string, requestsPerSecond: nat, timeoutMs: nat, weight: nat)

  datatype RetryConfig = RetryConfig(
    maxRetries: nat, initialDelayMs: nat, maxDelayMs: nat, backoffMultiplier: real)

  datatype Config = Config(
    endpoints: seq<EndpointConfig>,
    maxConcurrentRequests: nat,
    retryConfig: RetryConfig,
    poolSize: nat,
    keepAlive: Duration,
    cacheTtl: Duration,
    timeout: Duration)

  /** `EndpointConfig::validate`: a parsable URL with an http(s) scheme, at least 1 rps, 100..30000 ms. */
  predicate EndpointValid(e: EndpointConfig) {
    ParseScheme(e.url).Some? && ValidateUrl(e.url).Ok? &&
    e.requestsPerSecond >= 1 && 100 <= e.timeoutMs <= 30000
  }

  /** `RetryConfig::validate` */
  predicate RetryValid(r: RetryConfig) {
    r.maxRetries <= 10 &&
    100 <= r.initialDelayMs <= 5000 &&
    1000 <= r.maxDelayMs <= 30000 &&
    1.0 <= r.backoffMultiplier <= 5.0
  }

  /**
    `Config::validate`: at least one endpoint, 1..1000 concurrent requests and
    a valid retry configuration. The endpoint list is checked only for its
    length: its elements are not marked `nested`, so their own rules are not applied.
  */
  predicate Valid(c: Config) {
    |c.endpoints| >= 1 && 1 <= c.maxConcurrentRequests <= 1000 && RetryValid(c.retryConfig)
  }

  /** `EndpointConfig::new`: weight 1, the other fields as given. */
  function NewEndpoint(url: string, requestsPerSecond: nat, timeoutMs: nat): (e: EndpointConfig)
    ensures e.weight == 1
    ensures e.url == url && e.requestsPerSecond == requestsPerSecond && e.timeoutMs == timeoutMs
  {
    EndpointConfig(url, requestsPerSecond, timeoutMs, 1)
  }

  /** `Config::new`: pool of 10, keep-alive 30 s, cache TTL 60 s, timeout 30 s. */
  function NewConfig(endpoints: seq<EndpointConfig>, maxConcurrentRequests: nat, retryConfig: RetryConfig): (c: Config)
    ensures c.endpoints == endpoints && c.maxConcurrentRequests == maxConcurrentRequests
    ensures c.retryConfig == retryConfig
    ensures c.poolSize == 10 && c.keepAlive == FromSecs(30) && c.cacheTtl == FromSecs(60)
    ensures c.timeout == FromSecs(30)
  {
    Config(endpoints, maxConcurrentRequests, retryConfig, 10, FromSecs(30), FromSecs(60), FromSecs(30))
  }

  /** `RetryConfig::new` */
  function NewRetry(maxRetries: nat, initialDelayMs: nat, maxDelayMs: nat, backoffMultiplier: real): RetryConfig {
    RetryConfig(maxRetries, initialDelayMs, maxDelayMs, backoffMultiplier)
  }

  /** `RetryConfig::default` */
  function DefaultRetry(): RetryConfig {
    RetryConfig(5, 100, 10000, 2.0)
  }

  const MainnetUrl := "https://api.mainnet-beta.solana.com"

  /** `Config::default` */
  function DefaultConfig(): Config {
    Config([NewEndpoint(MainnetUrl, 100, 10000)], 10, DefaultRetry(), 10, FromSecs(30), FromSecs(60), FromSecs(30))
  }

  // ---------------------------------------------------------------------
  // Properties
  // ---------------------------------------------------------------------

  /** The scheme run of `scheme ++ ":" ++ rest` stops at the colon. */
  lemma {:induction false} SchemeRunOfPrefix(s: string, n: nat, i: nat)
    requires i <= n < |s| && s[n] == ':'
    requires forall j :: i <= j < n ==> IsSchemeChar(s[j])
    ensures SchemeRun(s, i) == n - i
    decreases n - i
  {
    if i < n {
      SchemeRunOfPrefix(s, n, i + 1);
    }
  }

  /** A string that starts with a scheme and a colon has that scheme, lower-cased. */
  lemma SchemeAtColon(s: string, n: nat)
    requires 0 < n < |s| && s[n] == ':' && IsAsciiAlpha(s[0])
    requires forall j :: 0 <= j < n ==> IsSchemeChar(s[j])
    ensures SchemeOf(s) == Some(Lower(s[..n]))
  {
    SchemeRunOfPrefix(s, n, 0);
  }

  /** A string that starts with `http:` or `https:`, in any case, has that scheme. */
  lemma HttpPrefixScheme(s: string, n: nat, scheme: string)
    requires n < |s| && scheme + ":" == Lower(s[..n + 1]) && (scheme == "http" || scheme == "https")
    ensures SchemeOf(s) == Some(scheme)
  {
    var low := Lower(s[..n + 1]);
    assert |scheme| == n;
    assert forall j :: 0 <= j < n ==> low[j] == scheme[j];
    LowerLetters(s, n, low);
    SchemeAtColon(s, n);
    assert s[..n] == s[..n + 1][..n];
    assert Lower(s[..n]) == low[..n] == scheme;
  }

  /** A string whose scheme is `http` or `https` starts with it and a colon. */
  lemma SchemeHttpPrefix(s: string)
    requires SchemeOf(s) == Some("http") || SchemeOf(s) == Some("https")
    ensures (|s| >= 5 && Lower(s[..5]) == "http:") || (|s| >= 6 && Lower(s[..6]) == "https:")
  {
    var n := SchemeRun(s, 0);
    var scheme := SchemeOf(s).value;
    assert n > 0 && n < |s| && s[n] == ':';
    assert scheme == Lower(s[..n]) && |scheme| == n;
    assert s[..n + 1] == s[..n] + [s[n]];
    assert Lower(s[..n + 1]) == scheme + [':'];
  }

  /**
    A cleaned string has the scheme `http` or `https` exactly when it starts,
    ignoring the case of letters, with `http:` or `https:`.
  */
  lemma SchemeRule(s: string)
    ensures SchemeOf(s) == Some("http") || SchemeOf(s) == Some("https") <==>
      (|s| >= 5 && Lower(s[..5]) == "http:") || (|s| >= 6 && Lower(s[..6]) == "https:")
  {
    if |s| >= 5 && Lower(s[..5]) == "http:" {
      HttpPrefixScheme(s, 4, "http");
    } else if |s| >= 6 && Lower(s[..6]) == "https:" {
      HttpPrefixScheme(s, 5, "https");
    }
    if SchemeOf(s) == Some("http") || SchemeOf(s) == Some("https") {
      SchemeHttpPrefix(s);
    }
  }

  /**
    A URL passes the scheme rule exactly when, once cleaned, it starts,
    ignoring the case of letters, with `http:` or `https:`.
  */
  lemma UrlRule(url: string)
    ensures var c := Clean(url);
      ValidateUrl(url).Ok? <==>
        (|c| >= 5 && Lower(c[..5]) == "http:") || (|c| >= 6 && Lower(c[..6]) == "https:")
  {
    SchemeRule(Clean(url));
  }

  /** A character whose lower-case form is a lower-case letter is a letter; `:` stays `:`. */
  lemma LowerLetters(url: string, n: nat, low: string)
    requires n < |url| && low == Lower(url[..n + 1])
    requires forall j :: 0 <= j < n ==> 'a' <= low[j] <= 'z'
    requires low[n] == ':'
    ensures forall j :: 0 <= j < n ==> IsAsciiAlpha(url[j]) && IsSchemeChar(url[j])
    ensures url[n] == ':'
  {
    forall j | 0 <= j < n
      ensures IsAsciiAlpha(url[j])
    {
      assert 'a' <= low[j] <= 'z';
      assert low[j] == ToLower(url[j]);
    }
    assert low[n] == ToLower(url[n]);
  }

  /** A string made only of scheme characters, with no colon, does not parse. */
  lemma {:induction false} SchemeRunAll(s: string, i: nat)
    requires i <= |s|
    requires forall j :: i <= j < |s| ==> IsSchemeChar(s[j])
    ensures SchemeRun(s, i) == |s| - i
    decreases |s| - i
  {
    if i < |s| {
      SchemeRunAll(s, i + 1);
    }
  }

  /** A scheme, a colon and anything after it give that scheme, lower-cased. */
  lemma SchemeOfPrefixed(scheme: string, rest: string)
    requires |scheme| > 0 && IsAsciiAlpha(scheme[0])
    requires forall j :: 0 <= j < |scheme| ==> IsSchemeChar(scheme[j])
    ensures SchemeOf(scheme + ":" + rest) == Some(Lower(scheme))
  {
    var s := scheme + ":" + rest;
    assert forall j :: 0 <= j < |scheme| ==> s[j] == scheme[j];
    assert s[|scheme|] == ':';
    SchemeRunOfPrefix(s, |scheme|, 0);
    assert s[..|scheme|] == scheme;
  }

  /** No C0 control and no space anywhere in the string. */
  predicate Plain(s: string) {
    forall i :: 0 <= i < |s| ==> !IsC0OrSpace(s[i])
  }

  /** A string without tabs and newlines loses nothing to their removal. */
  lemma {:induction false} RemoveKeepsPlain(s: string)
    requires forall i :: 0 <= i < |s| ==> !IsTabOrNewline(s[i])
    ensures RemoveTabNewline(s) == s
    decreases |s|
  {
    if |s| > 0 {
      RemoveKeepsPlain(s[1..]);
      assert [s[0]] + s[1..] == s;
    }
  }

  /** A string with no control character and no space is already clean. */
  lemma CleanKeepsPlain(s: string)
    requires Plain(s)
    ensures Clean(s) == s
  {
    RemoveKeepsPlain(s);
  }

  /** Cleaning twice is cleaning once, so the parser sees the same scheme in both. */
  lemma CleanIdempotent(s: string)
    ensures Clean(Clean(s)) == Clean(s)
    ensures ParseScheme(Clean(s)) == ParseScheme(s)
  {
    var c := Clean(s);
    assert TrimEnd(TrimStart(c)) == c;
    RemoveKeepsPlain(c);
  }

  /** Leading C0 controls and spaces are skipped whatever follows them. */
  lemma {:induction false} TrimStartSkips(p: string, s: string)
    requires forall i :: 0 <= i < |p| ==> IsC0OrSpace(p[i])
    ensures TrimStart(p + s) == TrimStart(s)
    decreases |p|
  {
    if |p| == 0 {
      assert p + s == s;
    } else {
      assert (p + s)[1..] == p[1..] + s;
      TrimStartSkips(p[1..], s);
    }
  }

  /** Trailing C0 controls and spaces are dropped whatever precedes them. */
  lemma {:induction false} TrimEndSkips(s: string, q: string)
    requires forall i :: 0 <= i < |q| ==> IsC0OrSpace(q[i])
    ensures TrimEnd(s + q) == TrimEnd(s)
    decreases |q|
  {
    if |q| == 0 {
      assert s + q == s;
    } else {
      assert (s + q)[..|s + q| - 1] == s + q[..|q| - 1];
      TrimEndSkips(s, q[..|q| - 1]);
    }
  }

  /** Once something is left after the leading controls, appending keeps it. */
  lemma {:induction false} TrimStartAppend(s: string, q: string)
    requires |TrimStart(s)| > 0
    ensures TrimStart(s + q) == TrimStart(s) + q
    decreases |s|
  {
    if IsC0OrSpace(s[0]) {
      assert (s + q)[1..] == s[1..] + q;
      TrimStartAppend(s[1..], q);
    }
  }

  /** Trimming ignores C0 controls and spaces put around a string. */
  lemma TrimSurrounding(p: string, s: string, q: string)
    requires forall i :: 0 <= i < |p| ==> IsC0OrSpace(p[i])
    requires forall i :: 0 <= i < |q| ==> IsC0OrSpace(q[i])
    ensures TrimEnd(TrimStart(p + s + q)) == TrimEnd(TrimStart(s))
  {
    assert p + s + q == p + (s + q);
    TrimStartSkips(p, s + q);
    if |TrimStart(s)| > 0 {
      TrimStartAppend(s, q);
      TrimEndSkips(TrimStart(s), q);
    } else {
      TrimStartEmpty(s);
      assert forall i :: 0 <= i < |s + q| ==> IsC0OrSpace((s + q)[i]);
      TrimStartAllSpace(s + q);
    }
  }

  /**
    C0 controls and spaces around a URL do not change what it parses to, so
    they do not change whether it passes.
  */
  lemma SurroundingSpaceIgnored(p: string, s: string, q: string)
    requires forall i :: 0 <= i < |p| ==> IsC0OrSpace(p[i])
    requires forall i :: 0 <= i < |q| ==> IsC0OrSpace(q[i])
    ensures Clean(p + s + q) == Clean(s)
    ensures ParseScheme(p + s + q) == ParseScheme(s)
    ensures ValidateUrl(p + s + q) == ValidateUrl(s)
  {
    TrimSurrounding(p, s, q);
  }

  /**
    A URL that starts with a lower-case scheme and a colon, and holds no
    control or space, parses to that scheme.
  */
  lemma PlainPrefixed(url: string, scheme: string)
    requires |scheme| < |url| && url[..|scheme|] == scheme && url[|scheme|] == ':' && Plain(url)
    requires |scheme| > 0 && forall j :: 0 <= j < |scheme| ==> 'a' <= scheme[j] <= 'z'
    ensures ParseScheme(url) == Some(scheme)
  {
    assert url == scheme + ":" + url[|scheme| + 1..];
    CleanKeepsPlain(url);
    SchemeOfPrefixed(scheme, url[|scheme| + 1..]);
    LowerKeepsLowerCase(scheme);
  }

  /** Removing tabs and newlines from two pieces is removing them from each. */
  lemma {:induction false} RemoveAppend(a: string, b: string)
    ensures RemoveTabNewline(a + b) == RemoveTabNewline(a) + RemoveTabNewline(b)
    decreases |a|
  {
    if |a| == 0 {
      assert a + b == b;
    } else {
      assert (a + b)[1..] == a[1..] + b;
      RemoveAppend(a[1..], b);
    }
  }

  /** A tab or newline inside a URL is ignored by the parser. */
  lemma TabInsideIgnored(a: string, t: char, b: string)
    requires IsTabOrNewline(t)
    requires |a| > 0 && !IsC0OrSpace(a[0]) && |b| > 0 && !IsC0OrSpace(b[|b| - 1])
    ensures Clean(a + [t] + b) == Clean(a + b)
    ensures ParseScheme(a + [t] + b) == ParseScheme(a + b)
    ensures ValidateUrl(a + [t] + b) == ValidateUrl(a + b)
  {
    var u := a + [t] + b;
    var v := a + b;
    assert u[0] == a[0] && v[0] == a[0] && u[|u| - 1] == b[|b| - 1] && v[|v| - 1] == b[|b| - 1];
    assert TrimEnd(TrimStart(u)) == u && TrimEnd(TrimStart(v)) == v;
    RemoveAppend(a + [t], b);
    RemoveAppend(a, [t]);
    RemoveAppend(a, b);
    assert RemoveTabNewline([t]) == [];
    assert RemoveTabNewline(a) + [] == RemoveTabNewline(a);
  }

  /** The mainnet URL holds no control or space and starts with `https:`. */
  lemma MainnetUrlParts()
    ensures MainnetUrl[..5] == "https" && MainnetUrl[5] == ':' && Plain(MainnetUrl)
  {
  }

  lemma ApiExampleUrlParts()
    ensures "https://api.example.com"[..5] == "https" && "https://api.example.com"[5] == ':'
    ensures Plain("https://api.example.com")
  {
  }

  lemma FtpUrlParts()
    ensures "ftp://example.com"[..3] == "ftp" && "ftp://example.com"[3] == ':' && Plain("ftp://example.com")
  {
  }

  lemma NoSchemeUrlParts()
    ensures Plain("invalid-url")
    ensures forall j :: 0 <= j < |"invalid-url"| ==> IsSchemeChar("invalid-url"[j])
  {
  }

  /** Leading C0 controls and spaces do not change whether a URL passes. */
  lemma LeadingSpaceIgnored(p: string, s: string)
    requires forall i :: 0 <= i < |p| ==> IsC0OrSpace(p[i])
    ensures ValidateUrl(p + s) == ValidateUrl(s)
  {
    SurroundingSpaceIgnored(p, s, "");
    assert p + s + "" == p + s;
  }

  /** A URL with a leading space still passes, as `Url::parse` trims it first. */
  lemma LeadingSpaceExample()
    ensures ValidateUrl(" " + "https://api.example.com") == Ok(())
  {
    ApiExampleUrlPasses();
    LeadingSpaceIgnored(" ", "https://api.example.com");
  }

  lemma ApiExampleUrlPasses()
    ensures ValidateUrl("https://api.example.com") == Ok(())
  {
    ApiExampleUrlParts();
    PlainPrefixed("https://api.example.com", "https");
  }

  /** The mainnet URL parses with scheme `https`. */
  lemma MainnetUrlPasses()
    ensures ParseScheme(MainnetUrl) == Some("https")
    ensures ValidateUrl(MainnetUrl) == Ok(())
  {
    MainnetUrlParts();
    PlainPrefixed(MainnetUrl, "https");
  }

  /** An `ftp` URL parses but has the wrong scheme. */
  lemma FtpExample()
    ensures ValidateUrl("ftp://example.com") == Err(ValidationError("invalid_scheme"))
  {
    FtpUrlParts();
    PlainPrefixed("ftp://example.com", "ftp");
  }

  /** A string of scheme characters with no colon, and no control or space, does not parse. */
  lemma NoColonNoScheme(url: string)
    requires Plain(url)
    requires forall j :: 0 <= j < |url| ==> IsSchemeChar(url[j])
    ensures ParseScheme(url) == None
  {
    CleanKeepsPlain(url);
    SchemeRunAll(url, 0);
  }

  /** A string without a scheme does not parse. */
  lemma NoSchemeExample()
    ensures ValidateUrl("invalid-url") == Err(ValidationError("invalid_url"))
  {
    NoSchemeUrlParts();
    NoColonNoScheme("invalid-url");
  }

  /** Lower-casing leaves a string without upper-case letters as it is. */
  lemma LowerKeepsLowerCase(s: string)
    requires forall i :: 0 <= i < |s| ==> !('A' <= s[i] <= 'Z')
    ensures Lower(s) == s
  {
    var low := Lower(s);
    assert forall i :: 0 <= i < |s| ==> low[i] == s[i];
  }

  /** The default configuration and its one endpoint pass validation. */
  lemma DefaultValid()
    ensures Valid(DefaultConfig())
    ensures EndpointValid(DefaultConfig().endpoints[0])
    ensures DefaultConfig().maxConcurrentRequests == 10 && DefaultConfig().retryConfig.maxRetries == 5
    ensures DefaultConfig().poolSize == 10
  {
    MainnetUrlPasses();
  }

  /** The default retry settings are `RetryConfig::new(5, 100, 10000, 2.0)` and lie inside every range. */
  lemma RetryDefaults()
    ensures DefaultRetry() == NewRetry(5, 100, 10000, 2.0)
    ensures RetryValid(DefaultRetry())
    ensures !RetryValid(NewRetry(0, 99, 1000, 1.0)) && !RetryValid(NewRetry(0, 100, 30001, 1.0))
    ensures !RetryValid(NewRetry(0, 100, 1000, 5.5))
  {
  }

  /** The rejected values of the configuration tests. */
  lemma RejectedExamples()
    ensures !EndpointValid(EndpointConfig("ftp://example.com", 0, 0, 1))
    ensures !Valid(DefaultConfig().(maxConcurrentRequests := 0))
    ensures !Valid(DefaultConfig().(maxConcurrentRequests := 1001))
    ensures !Valid(DefaultConfig().(retryConfig := DefaultConfig().retryConfig.(maxRetries := 11)))
  {
  }

  /** Endpoint bounds: `requests_per_second >= 1` and `100 <= timeout_ms <= 30000`. */
  lemma EndpointBounds(e: EndpointConfig)
    requires EndpointValid(e)
    ensures e.requestsPerSecond >= 1 && 100 <= e.timeoutMs <= 30000
    ensures var c := Clean(e.url);
      (|c| >= 5 && Lower(c[..5]) == "http:") || (|c| >= 6 && Lower(c[..6]) == "https:")
  {
    UrlRule(e.url);
  }

  /** Configuration validity does not look inside the endpoints: any non-empty list will do. */
  lemma ValidityIgnoresEndpointContents(c: Config, endpoints: seq<EndpointConfig>)
    requires |endpoints| >= 1 && |c.endpoints| >= 1
    ensures Valid(c.(endpoints := endpoints)) == Valid(c)
  {
  }
}
