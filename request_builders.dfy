/**
 * The two `createRequest` helpers: src/helpers/UrllibHelper.ts (speedtest.net requests
 * with an optional `?x=<time><bump>` cache bump and scheme completion for `://host` URLs)
 * and src/utils/general.ts (the same with a `null`-able cache bump and body).
 * Both write `user-agent` and `cache-control` into the caller's headers object, then build
 * the options handed to urllib. The transport itself is not modelled: the model stops at
 * the request it would send, and at how the urllib helper settles a failed request.
 */
module RequestBuilders {
  import opened Wrappers
  import opened Text

  datatype HttpMethod = Get | Post

  /** The urllib helper's `data` argument, by JavaScript type (the default is `{}`). */
  datatype Payload =
    | ObjectValue
    | ArrayValue
    | NullValue
    | StringValue(s: string)
    | NumberValue(n: real)
    | BooleanValue(b: bool)

  /** `typeof data === "object"`: objects, arrays and `null`. */
  predicate IsObject(data: Payload) {
    data.ObjectValue? || data.ArrayValue? || data.NullValue?
  }

  /**
   * The caller's extra urllib options. Spread after `method` and `timeout`, so these two
   * override the computed ones when present; their `headers` override the stamped ones.
   */
  datatype RequestOptions = RequestOptions(
    httpMethod: Option<HttpMethod>,
    timeout: Option<real>,
    headers: map<string, string>)

  /** What urllib is asked to send. */
  datatype Request = Request(
    url: string,
    httpMethod: HttpMethod,
    timeoutMs: real,
    headers: map<string, string>,
    data: Payload)

  /** `process.platform`, `process.arch` and `process.version`, which the model takes as inputs. */
  datatype Runtime = Runtime(platform: string, arch: string, version: string)

  const UserAgentKey := "user-agent"
  const CacheControlKey := "cache-control"
  const UrllibProduct := "UniversalSpeedTest/2.0.5"
  const GeneralProduct := "UniversalSpeedTest/APP_VERSION"

  function UserAgent(runtime: Runtime, product: string): string {
    "Mozilla/5.0 (" + runtime.platform + "; U; " + runtime.arch + "; en-us) TypeScript/"
      + runtime.version + " (KHTML, like Gecko) " + product
  }

  /** The caller's `headers` object, which both helpers write into. */
  class HeaderBag {
    var entries: map<string, string>

    constructor(entries: map<string, string>)
      ensures this.entries == entries
    {
      this.entries := entries;
    }

    /** `headers["user-agent"] = …; headers["cache-control"] = "no-cache"`. */
    method Stamp(userAgent: string)
      modifies this
      ensures entries == old(entries)[UserAgentKey := userAgent][CacheControlKey := "no-cache"]
    {
      entries := entries[UserAgentKey := userAgent];
      entries := entries[CacheControlKey := "no-cache"];
    }
  }

  /** `{...headers, ...options.headers}`: every key of either, the options' value winning. */
  function MergeHeaders(headers: map<string, string>, overrides: map<string, string>): (r: map<string, string>)
    ensures r.Keys == headers.Keys + overrides.Keys
    ensures forall k :: k in overrides ==> r[k] == overrides[k]
    ensures forall k :: k in headers && k !in overrides ==> r[k] == headers[k]
  {
    headers + overrides
  }

  /** A URL that starts with ":" (as in "://host/…") gets the scheme in front. */
  function SchemePrefix(url: string, secure: bool): string {
    if |url| > 0 && url[0] == ':' then (if secure then "https" else "http") else ""
  }

  /** `(url.includes("?") ? "&" : "?") + "x=" + timestamp + bump`. */
  function BumpSuffix(url: string, timestamp: string, bump: string): string {
    (if Contains(url, "?") then "&" else "?") + "x=" + timestamp + bump
  }

  /**
   * The urllib helper's URL. `timestamp` is the decimal rendering of `performance.now()`,
   * a clock reading the model takes as an input.
   */
  function UrllibUrl(url: string, secure: bool, bump: string, timestamp: string, withBump: bool): string {
    SchemePrefix(url, secure) + url + (if withBump then BumpSuffix(url, timestamp, bump) else "")
  }

  /** The urllib helper's method: POST exactly when `data` is not an object. */
  function UrllibMethod(data: Payload): (m: HttpMethod)
    ensures m == Post <==> !IsObject(data)
  {
    if !IsObject(data) then Post else Get
  }

  /** The options object of the urllib helper, from the headers as stamped. */
  function UrllibRequest(url: string, headers: map<string, string>, secure: bool, data: Payload, bump: string,
                         timeout: real, withBump: bool, options: RequestOptions, timestamp: string): Request
  {
    Request(
      UrllibUrl(url, secure, bump, timestamp, withBump),
      options.httpMethod.GetOr(UrllibMethod(data)),
      options.timeout.GetOr(timeout * 1000.0),
      MergeHeaders(headers, options.headers),
      data)
  }

  /** `createRequest` of src/helpers/UrllibHelper.ts, up to the call into urllib. */
  method UrllibCreateRequest(url: string, headers: HeaderBag, secure: bool, data: Payload, bump: string,
                             timeout: real, withBump: bool, options: RequestOptions,
                             runtime: Runtime, timestamp: string) returns (request: Request)
    modifies headers
    ensures headers.entries
         == old(headers.entries)[UserAgentKey := UserAgent(runtime, UrllibProduct)][CacheControlKey := "no-cache"]
    ensures request == UrllibRequest(url, headers.entries, secure, data, bump, timeout, withBump, options, timestamp)
  {
    headers.Stamp(UserAgent(runtime, UrllibProduct));
    request := UrllibRequest(url, headers.entries, secure, data, bump, timeout, withBump, options, timestamp);
  }

  /** How urllib's promise settles. */
  datatype Outcome<T> = Resolved(response: T) | Rejected

  /** `.catch(() => null)`: a rejection becomes `null`, a response passes through. */
  function CatchToNull<T>(outcome: Outcome<T>): (r: Option<T>)
    ensures r.None? <==> outcome.Rejected?
    ensures outcome.Resolved? ==> r == Some(outcome.response)
  {
    match outcome
    case Resolved(response) => Some(response)
    case Rejected => None
  }

  /** The bump suffix read back: one separator character, "x=", then the timestamp and the bump. */
  lemma BumpSuffixParts(url: string, timestamp: string, bump: string)
    ensures var s := BumpSuffix(url, timestamp, bump);
            && |s| == 3 + |timestamp| + |bump|
            && s[0] == (if Contains(url, "?") then '&' else '?')
            && s[1..3] == "x="
            && s[3..] == timestamp + bump
  {
    var sep := if Contains(url, "?") then "&" else "?";
    var s := BumpSuffix(url, timestamp, bump);
    assert s == sep + "x=" + timestamp + bump;
    assert s[3..] == timestamp + bump;
  }

  /**
   * The URL the urllib helper requests begins with the scheme completion ("https" or
   * "http" in front of a URL starting with ":") followed by the original URL unchanged.
   */
  lemma UrllibUrlKeepsUrl(url: string, secure: bool, bump: string, timestamp: string, withBump: bool)
    ensures var r := UrllibUrl(url, secure, bump, timestamp, withBump);
            var k := |SchemePrefix(url, secure)|;
            && (|url| > 0 && url[0] == ':' ==> StartsWith(r, if secure then "https:" else "http:"))
            && (!(|url| > 0 && url[0] == ':') ==> StartsWith(r, url))
            && k + |url| <= |r| && r[k..k + |url|] == url
  {
    var prefix := SchemePrefix(url, secure);
    var suffix := if withBump then BumpSuffix(url, timestamp, bump) else "";
    var r := UrllibUrl(url, secure, bump, timestamp, withBump);
    assert r == prefix + url + suffix;
    ConcatParts(prefix, url, suffix);
    if |url| > 0 && url[0] == ':' {
      assert r[..|prefix| + 1] == prefix + [':'];
    }
  }

  /**
   * After the URL comes nothing without the bump; with it, a separator that is "&"
   * exactly when the URL already had a query (else "?"), "x=", the timestamp and the bump.
   */
  lemma UrllibUrlSuffix(url: string, secure: bool, bump: string, timestamp: string, withBump: bool)
    ensures var r := UrllibUrl(url, secure, bump, timestamp, withBump);
            var m := |SchemePrefix(url, secure)| + |url|;
            && (!withBump ==> |r| == m)
            && (withBump ==>
                  && |r| == m + 3 + |timestamp| + |bump|
                  && r[m] == (if Contains(url, "?") then '&' else '?')
                  && r[m + 1..m + 3] == "x="
                  && r[m + 3..] == timestamp + bump)
  {
    var prefix := SchemePrefix(url, secure);
    var suffix := if withBump then BumpSuffix(url, timestamp, bump) else "";
    var r := UrllibUrl(url, secure, bump, timestamp, withBump);
    assert r == prefix + url + suffix;
    ConcatParts(prefix, url, suffix);
    if withBump {
      BumpSuffixParts(url, timestamp, bump);
      var m := |prefix| + |url|;
      assert r[m..] == suffix;
      assert r[m + 1..m + 3] == suffix[1..3];
      assert r[m + 3..] == suffix[3..];
    }
  }

  /** The three parts of `a + b + c` sit at their offsets. */
  lemma ConcatParts<T>(a: seq<T>, b: seq<T>, c: seq<T>)
    ensures (a + b + c)[..|a|] == a
    ensures (a + b + c)[|a|..|a| + |b|] == b
    ensures (a + b + c)[|a| + |b|..] == c
  {
  }

  /** With the bump on, the requested URL always carries a query string. */
  lemma UrllibBumpedUrlHasQuery(url: string, secure: bool, bump: string, timestamp: string)
    ensures Contains(UrllibUrl(url, secure, bump, timestamp, true), "?")
  {
    var prefix := SchemePrefix(url, secure);
    var suffix := BumpSuffix(url, timestamp, bump);
    if Contains(url, "?") {
      ContainsAppend(prefix, url, "?");
      ContainsAppend(prefix + url, suffix, "?");
    } else {
      assert suffix[0..1] == "?";
      ContainsAt(suffix, "?", 0);
      ContainsAppend(prefix + url, suffix, "?");
    }
  }

  /** The urllib helper's request: method and timeout unless overridden, headers merged, data passed on. */
  lemma UrllibRequestFields(url: string, headers: map<string, string>, secure: bool, data: Payload, bump: string,
                            timeout: real, withBump: bool, options: RequestOptions, timestamp: string)
    ensures var req := UrllibRequest(url, headers, secure, data, bump, timeout, withBump, options, timestamp);
            && (options.httpMethod.None? ==> (req.httpMethod == Post <==> !IsObject(data)))
            && (options.httpMethod.Some? ==> req.httpMethod == options.httpMethod.value)
            && (options.timeout.None? ==> req.timeoutMs == 1000.0 * timeout)
            && (options.timeout.Some? ==> req.timeoutMs == options.timeout.value)
            && req.headers.Keys == headers.Keys + options.headers.Keys
            && (forall k :: k in options.headers ==> req.headers[k] == options.headers[k])
            && (forall k :: k in headers && k !in options.headers ==> req.headers[k] == headers[k])
            && req.data == data
  {
  }

  /**
   * The URL of src/utils/general.ts: unchanged when the bump is `null`, else the same
   * separator rule with `Date.now()` (an integer of milliseconds, an input here).
   */
  function GeneralUrl(url: string, cacheBump: Option<string>, now: int): string {
    url + (if cacheBump.Some? then BumpSuffix(url, IntToString(now), cacheBump.value) else "")
  }

  /** The general helper's method: POST exactly when the body is not `null`. */
  function GeneralMethod(body: Option<string>): (m: HttpMethod)
    ensures m == Post <==> body.Some?
  {
    if body.Some? then Post else Get
  }

  function BodyPayload(body: Option<string>): Payload {
    if body.Some? then StringValue(body.value) else NullValue
  }

  /** The options object of the general helper; `options` may be absent (`options?.headers`). */
  function GeneralRequest(url: string, headers: map<string, string>, body: Option<string>, cacheBump: Option<string>,
                          timeout: real, options: Option<RequestOptions>, now: int): Request
  {
    var extra := options.GetOr(RequestOptions(None, None, map[]));
    Request(
      GeneralUrl(url, cacheBump, now),
      extra.httpMethod.GetOr(GeneralMethod(body)),
      extra.timeout.GetOr(timeout * 1000.0),
      MergeHeaders(headers, extra.headers),
      BodyPayload(body))
  }

  /** `createRequest` of src/utils/general.ts, up to the call into urllib. */
  method GeneralCreateRequest(url: string, headers: HeaderBag, body: Option<string>, cacheBump: Option<string>,
                              timeout: real, options: Option<RequestOptions>,
                              runtime: Runtime, now: int) returns (request: Request)
    modifies headers
    ensures headers.entries
         == old(headers.entries)[UserAgentKey := UserAgent(runtime, GeneralProduct)][CacheControlKey := "no-cache"]
    ensures request == GeneralRequest(url, headers.entries, body, cacheBump, timeout, options, now)
  {
    headers.Stamp(UserAgent(runtime, GeneralProduct));
    request := GeneralRequest(url, headers.entries, body, cacheBump, timeout, options, now);
  }

  /**
   * The general helper's URL read back: unchanged without a bump; otherwise the original
   * URL, then "&" exactly when it already had a query (else "?"), "x=", the time and the bump.
   */
  lemma GeneralUrlParts(url: string, cacheBump: Option<string>, now: int)
    ensures var r := GeneralUrl(url, cacheBump, now);
            && (cacheBump.None? ==> r == url)
            && (cacheBump.Some? ==>
                  && |r| == |url| + 3 + |IntToString(now)| + |cacheBump.value|
                  && r[..|url|] == url
                  && r[|url|] == (if Contains(url, "?") then '&' else '?')
                  && r[|url| + 1..|url| + 3] == "x="
                  && r[|url| + 3..] == IntToString(now) + cacheBump.value)
  {
    var r := GeneralUrl(url, cacheBump, now);
    if cacheBump.Some? {
      var suffix := BumpSuffix(url, IntToString(now), cacheBump.value);
      BumpSuffixParts(url, IntToString(now), cacheBump.value);
      assert r == url + suffix;
      assert r[..|url|] == url;
      assert r[|url|..] == suffix;
      assert r[|url| + 1..|url| + 3] == suffix[1..3];
      assert r[|url| + 3..] == suffix[3..];
    } else {
      assert r == url + "";
    }
  }

  /**
   * The two helpers agree on URLs that need no scheme: a bump `b` in the general helper
   * gives the urllib helper's bumped URL at the same time reading.
   */
  lemma GeneralUrlMatchesUrllib(url: string, secure: bool, bump: string, now: int)
    requires !(|url| > 0 && url[0] == ':')
    ensures GeneralUrl(url, Some(bump), now) == UrllibUrl(url, secure, bump, IntToString(now), true)
    ensures GeneralUrl(url, None, now) == UrllibUrl(url, secure, bump, IntToString(now), false)
  {
    assert SchemePrefix(url, secure) == "";
    assert "" + url + BumpSuffix(url, IntToString(now), bump) == url + BumpSuffix(url, IntToString(now), bump);
    assert "" + url + "" == url + "";
  }
}
