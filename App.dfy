/**
 * The load pipeline of the application: normalise the typed URL, validate it,
 * try the `apasnap.json` manifest, fall back to scraping the autoindex page
 * (through a chain of CORS proxies, or directly), and end with either a
 * populated item list or an error message.
 *
 * The browser's services are parameters gathered in `Env`: URL parsing,
 * `encodeURIComponent`, `fetch` (one response per requested URL), JSON
 * parsing, the DOM's anchors, `Date.now()` and `decodeURIComponent`.
 */
module App {
  import opened Wrappers
  import opened Text
  import opened Types
  import opened Parser
  import opened Validator

  // ---------------------------------------------------------------------------
  // URL normalisation

  /** `/^https?:\/\//i`: the string starts, ignoring ASCII case, with `http://` or `https://`. */
  predicate HasHttpScheme(s: string) {
    StartsWith(Lower(s), "http://") || StartsWith(Lower(s), "https://")
  }

  /** normalizeUrl: the trimmed input, given an `https://` scheme when it has none. */
  function NormalizeUrl(input: string): (url: string)
    ensures url == Trim(input) || url == "https://" + Trim(input)
    ensures url == Trim(input) <==> HasHttpScheme(Trim(input))
    ensures HasHttpScheme(url)
    ensures Trim(url) == url
  {
    var t := Trim(input);
    if HasHttpScheme(t) then
      TrimOfTrimmed(t);
      t
    else
      var u := "https://" + t;
      assert |u| == 8 + |t|;
      SchemePrefixKept(t);
      assert u[0] == 'h';
      assert u[|u| - 1] == if t == [] then '/' else t[|t| - 1];
      TrimOfTrimmed(u);
      u
  }

  /** Lowercasing keeps the already lowercase `https://` in front of any string. */
  lemma SchemePrefixKept(t: string)
    ensures HasHttpScheme("https://" + t)
  {
    var u := "https://" + t;
    forall i | 0 <= i < 8 ensures Lower(u)[i] == u[i] {
      assert u[i] == "https://"[i];
    }
    assert Lower(u)[..8] == u[..8] == "https://";
  }

  /** Normalising an already normalised URL changes nothing. */
  lemma NormalizeIdempotent(input: string)
    ensures NormalizeUrl(NormalizeUrl(input)) == NormalizeUrl(input)
  {
  }

  /** The manifest sits directly under the directory: `url/apasnap.json` with exactly one slash. */
  function ManifestUrl(url: string): (r: string)
    ensures r == CleanBase(url) + "apasnap.json"
  {
    if EndsWith(url, "/") then url + "apasnap.json"
    else
      assert url + "/apasnap.json" == (url + "/") + "apasnap.json";
      url + "/apasnap.json"
  }

  // ---------------------------------------------------------------------------
  // Transports

  /** The outcome of one `fetch`: a response with its status and text, or a rejected promise. */
  datatype Response = Response(status: int, body: string) | NetworkError

  /** `response.ok`: a status in the range 200 to 299. */
  predicate Ok(r: Response) {
    r.Response? && 200 <= r.status <= 299
  }

  /** The browser services the pipeline uses, taken as given functions. */
  datatype Env = Env(
    parseUrl: string -> Option<ParsedUrl>,
    enc: string -> string,
    fetch: string -> Response,
    parseJson: string -> Option<Manifest>,
    anchors: string -> seq<Link>,
    clock: nat -> nat,
    decode: string -> Option<string>)

  const CorsProxy := "https://corsproxy.io/?"
  const AllOrigins := "https://api.allorigins.win/raw?url="

  /** The transports in the order they are tried: CorsProxy.io first, then AllOrigins. */
  function ProxyUrls(target: string, enc: string -> string): (urls: seq<string>)
    ensures |urls| == 2
    ensures StartsWith(urls[0], CorsProxy) && StartsWith(urls[1], AllOrigins)
  {
    StartsWithConcat(CorsProxy, enc(target));
    StartsWithConcat(AllOrigins, enc(target));
    [CorsProxy + enc(target), AllOrigins + enc(target)]
  }

  /** Why a transport, or the whole chain, failed. */
  datatype FetchError =
    | AuthRequired          // 401_AUTH
    | AccessForbidden       // 403_FORBIDDEN
    | HttpError(status: int) // HTTP_<status>
    | NetworkFailure        // the promise of fetch rejected
    | NoProxyWorked         // the initial lastError, thrown if no transport is tried

  datatype Fetched = Body(html: string) | Failed(cause: FetchError)

  /** One iteration of the proxy loop: the response read as a page or as an error. */
  function Attempt(r: Response): Fetched {
    match r
    case NetworkError => Failed(NetworkFailure)
    case Response(status, body) =>
      if status == 401 then Failed(AuthRequired)
      else if status == 403 then Failed(AccessForbidden)
      else if !(200 <= status <= 299) then Failed(HttpError(status))
      else Body(body)
  }

  /** Authentication errors are rethrown at once instead of moving to the next transport. */
  predicate Fatal(f: Fetched) {
    f.Failed? && (f.cause == AuthRequired || f.cause == AccessForbidden)
  }

  /** The loop ends at a transport that gives a page or a fatal error. */
  predicate Stops(f: Fetched) {
    f.Body? || Fatal(f)
  }

  /** The chain over the responses of the transports, `last` being the error thrown when none stops it. */
  function Chain(rs: seq<Response>, last: FetchError): Fetched {
    if rs == [] then Failed(last)
    else
      var f := Attempt(rs[0]);
      if Stops(f) then f else Chain(rs[1..], f.cause)
  }

  /** How many transports the chain asks. */
  function Tried(rs: seq<Response>): (n: nat)
    ensures n <= |rs|
  {
    if rs == [] then 0
    else if Stops(Attempt(rs[0])) then 1
    else 1 + Tried(rs[1..])
  }

  /** The responses the transports would give. */
  function Responses(urls: seq<string>, fetch: string -> Response): (rs: seq<Response>)
    ensures |rs| == |urls|
    ensures forall i :: 0 <= i < |urls| ==> rs[i] == fetch(urls[i])
  {
    seq(|urls|, i requires 0 <= i < |urls| => fetch(urls[i]))
  }

  /** Skipping transports that failed without stopping the loop keeps the chain's result and count. */
  lemma {:induction false} ChainSkip(rs: seq<Response>, last: FetchError, i: nat)
    requires i < |rs| && !Stops(Attempt(rs[i]))
    ensures Chain(rs[i..], last) == Chain(rs[i + 1..], Attempt(rs[i]).cause)
    ensures Tried(rs[i..]) == 1 + Tried(rs[i + 1..])
  {
    assert rs[i..][0] == rs[i];
    assert rs[i..][1..] == rs[i + 1..];
  }

  /**
   * fetchHtmlViaProxy: asks each transport in turn, stops at the first page or
   * authentication error, and otherwise throws the last error seen.
   */
  method FetchHtmlViaProxy(target: string, enc: string -> string, fetch: string -> Response)
    returns (result: Fetched, requests: seq<string>)
    ensures var urls := ProxyUrls(target, enc);
      var rs := Responses(urls, fetch);
      result == Chain(rs, NoProxyWorked) && requests == urls[..Tried(rs)]
  {
    var proxies := ProxyUrls(target, enc);
    ghost var rs := Responses(proxies, fetch);
    var lastError := NoProxyWorked;
    requests := [];
    var i := 0;
    while i < |proxies|
      invariant 0 <= i <= |proxies|
      invariant requests == proxies[..i]
      invariant Chain(rs, NoProxyWorked) == Chain(rs[i..], lastError)
      invariant Tried(rs) == i + Tried(rs[i..])
    {
      var res := fetch(proxies[i]);
      requests := requests + [proxies[i]];
      var attempt := Attempt(res);
      assert attempt == Attempt(rs[i]);
      assert rs[i..][0] == rs[i];
      if Stops(attempt) {
        assert requests == proxies[..i + 1];
        return attempt, requests;
      }
      ChainSkip(rs, lastError, i);
      lastError := attempt.cause;
      i := i + 1;
    }
    assert rs[i..] == [];
    return Failed(lastError), requests;
  }

  /** A fatal error ends the chain at once: no later transport is asked. */
  lemma {:induction false} ChainStopsAtFatal(rs: seq<Response>, last: FetchError, i: nat)
    requires i < |rs|
    requires forall j :: 0 <= j < i ==> !Stops(Attempt(rs[j]))
    requires Fatal(Attempt(rs[i]))
    ensures Chain(rs, last) == Attempt(rs[i]) && Tried(rs) == i + 1
  {
    if i > 0 {
      forall j | 0 <= j < i - 1 ensures !Stops(Attempt(rs[1..][j])) {
        assert rs[1..][j] == rs[j + 1];
      }
      ChainStopsAtFatal(rs[1..], Attempt(rs[0]).cause, i - 1);
    }
  }

  /** The first transport that returns a page decides the result. */
  lemma {:induction false} ChainFirstPage(rs: seq<Response>, last: FetchError, i: nat)
    requires i < |rs|
    requires forall j :: 0 <= j < i ==> !Stops(Attempt(rs[j]))
    requires Ok(rs[i])
    ensures Chain(rs, last) == Body(rs[i].body) && Tried(rs) == i + 1
  {
    if i > 0 {
      forall j | 0 <= j < i - 1 ensures !Stops(Attempt(rs[1..][j])) {
        assert rs[1..][j] == rs[j + 1];
      }
      ChainFirstPage(rs[1..], Attempt(rs[0]).cause, i - 1);
    }
  }

  /** When every transport fails without stopping, all are asked and the last error is thrown. */
  lemma {:induction false} ChainExhausted(rs: seq<Response>, last: FetchError)
    requires rs != []
    requires forall j :: 0 <= j < |rs| ==> !Stops(Attempt(rs[j]))
    ensures Attempt(rs[|rs| - 1]).Failed?
    ensures Chain(rs, last) == Failed(Attempt(rs[|rs| - 1]).cause) && Tried(rs) == |rs|
  {
    if |rs| > 1 {
      forall j | 0 <= j < |rs| - 1 ensures !Stops(Attempt(rs[1..][j])) {
        assert rs[1..][j] == rs[j + 1];
      }
      ChainExhausted(rs[1..], Attempt(rs[0]).cause);
    }
  }

  /** The chain never throws the initial error: there are transports to try. */
  lemma ProxyChainNeverEmpty(target: string, enc: string -> string, fetch: string -> Response)
    ensures Chain(Responses(ProxyUrls(target, enc), fetch), NoProxyWorked) != Failed(NoProxyWorked)
  {
    var rs := Responses(ProxyUrls(target, enc), fetch);
    if forall j :: 0 <= j < |rs| ==> !Stops(Attempt(rs[j])) {
      ChainExhausted(rs, NoProxyWorked);
    } else {
      var i :| 0 <= i < |rs| && Stops(Attempt(rs[i])) && forall j :: 0 <= j < i ==> !Stops(Attempt(rs[j]));
    }
  }

  // ---------------------------------------------------------------------------
  // Messages

  const AuthMessage := "Accès refusé (401). Ce dossier est protégé par un mot de passe."
  const ForbiddenMessage := "Accès interdit (403). Le serveur refuse l'accès."
  const ProxyFailureMessage := "Erreur de chargement via Proxy. Vérifiez l'URL ou réessayez."
  const DirectFailureMessage := "Impossible d'accéder au dossier directement. Le mode 'Turbo Proxy' est recommandé pour ce site."
  const NoMediaMessage := "Aucun fichier média trouvé. Le dossier est peut-être vide ou protégé."
  const InvalidFallbackMessage := "URL invalide"

  /** What the proxy-mode `catch` rethrows for a failed chain. */
  function ProxyErrorMessage(cause: FetchError): (m: string)
    ensures m == AuthMessage <==> cause == AuthRequired
    ensures m == ForbiddenMessage <==> cause == AccessForbidden
    ensures m != AuthMessage && m != ForbiddenMessage ==> m == ProxyFailureMessage
  {
    match cause
    case AuthRequired => AuthMessage
    case AccessForbidden => ForbiddenMessage
    case _ => ProxyFailureMessage
  }

  // ---------------------------------------------------------------------------
  // The whole load

  /** How scraping the page ended: with the parsed items, or with the message thrown. */
  datatype Scrape = Scraped(items: seq<MediaItem>) | ScrapeFailed(message: string)

  /** Parsing a page; a name that cannot be decoded throws, and the caller's `catch` maps that to `onError`. */
  function ScrapePage(html: string, url: string, env: Env, onError: string): Scrape {
    match Listing(env.anchors(html), url, env.clock, env.decode)
    case Some(items) => Scraped(items)
    case None => ScrapeFailed(onError)
  }

  /** The request for the manifest: through CorsProxy.io in proxy mode, else direct. */
  function ManifestRequest(url: string, proxyEnabled: bool, enc: string -> string): string {
    if proxyEnabled then CorsProxy + enc(ManifestUrl(url)) else ManifestUrl(url)
  }

  /** The items of the manifest; every failure (non-ok status, network, bad JSON) is swallowed as `[]`. */
  function ManifestItemsOf(url: string, proxyEnabled: bool, env: Env): seq<MediaItem> {
    var r := env.fetch(ManifestRequest(url, proxyEnabled, env.enc));
    if !Ok(r) then []
    else
      match env.parseJson(r.body)
      case None => []
      case Some(json) => ParseManifestJson(json, url, env.clock)
  }

  /** The HTML stage in proxy mode: the chain, then the parse, any failure mapped to its message. */
  function ProxyScrape(url: string, env: Env): (Scrape, seq<string>) {
    var urls := ProxyUrls(url, env.enc);
    var rs := Responses(urls, env.fetch);
    var reqs := urls[..Tried(rs)];
    match Chain(rs, NoProxyWorked)
    case Body(html) => (ScrapePage(html, url, env, ProxyFailureMessage), reqs)
    case Failed(cause) => (ScrapeFailed(ProxyErrorMessage(cause)), reqs)
  }

  /** The HTML stage in direct mode: any failure gives the Turbo Proxy hint. */
  function DirectScrape(url: string, env: Env): Scrape {
    var r := env.fetch(url);
    if !Ok(r) then ScrapeFailed(DirectFailureMessage)
    else ScrapePage(r.body, url, env, DirectFailureMessage)
  }

  /** The observable end state of one load, and the URLs requested on the way, in order. */
  datatype Outcome = Outcome(items: seq<MediaItem>, error: Option<string>, manifestMode: bool,
                             usingProxy: bool, requests: seq<string>)

  /** The end of a scrape: no items is itself an error. */
  function Finish(s: Scrape, usingProxy: bool, requests: seq<string>): Outcome {
    match s
    case ScrapeFailed(m) => Outcome([], Some(m), false, usingProxy, requests)
    case Scraped(items) =>
      if items == [] then Outcome([], Some(NoMediaMessage), false, usingProxy, requests)
      else Outcome(items, None, false, usingProxy, requests)
  }

  /** handleLoadUrl for an already normalised `url`. */
  function LoadOutcome(url: string, proxyEnabled: bool, env: Env): Outcome {
    var v := IsValidTargetUrl(env.parseUrl(url));
    if !v.valid then Outcome([], Some(v.error.GetOr(InvalidFallbackMessage)), false, false, [])
    else
      var mReq := ManifestRequest(url, proxyEnabled, env.enc);
      var mItems := ManifestItemsOf(url, proxyEnabled, env);
      if mItems != [] then Outcome(mItems, None, true, false, [mReq])
      else if proxyEnabled then
        var (s, reqs) := ProxyScrape(url, env);
        Finish(s, true, [mReq] + reqs)
      else Finish(DirectScrape(url, env), false, [mReq, url])
  }

  lemma FinishErrorOrItems(s: Scrape, usingProxy: bool, requests: seq<string>)
    ensures var o := Finish(s, usingProxy, requests);
      (o.error.Some? <==> o.items == []) && !o.manifestMode && o.requests == requests
      && o.usingProxy == usingProxy
  {
  }

  /** The three ways a load ends, one lemma each, so that callers need not unfold the whole pipeline. */
  lemma LoadRefused(url: string, proxyEnabled: bool, env: Env)
    requires !IsValidTargetUrl(env.parseUrl(url)).valid
    ensures LoadOutcome(url, proxyEnabled, env)
         == Outcome([], Some(IsValidTargetUrl(env.parseUrl(url)).error.GetOr(InvalidFallbackMessage)), false, false, [])
  {
  }

  lemma LoadFromManifest(url: string, proxyEnabled: bool, env: Env)
    requires IsValidTargetUrl(env.parseUrl(url)).valid
    requires ManifestItemsOf(url, proxyEnabled, env) != []
    ensures LoadOutcome(url, proxyEnabled, env)
         == Outcome(ManifestItemsOf(url, proxyEnabled, env), None, true, false,
                    [ManifestRequest(url, proxyEnabled, env.enc)])
  {
  }

  lemma LoadFromPage(url: string, proxyEnabled: bool, env: Env)
    requires IsValidTargetUrl(env.parseUrl(url)).valid
    requires ManifestItemsOf(url, proxyEnabled, env) == []
    ensures var mReq := ManifestRequest(url, proxyEnabled, env.enc);
      LoadOutcome(url, proxyEnabled, env)
      == if proxyEnabled then Finish(ProxyScrape(url, env).0, true, [mReq] + ProxyScrape(url, env).1)
         else Finish(DirectScrape(url, env), false, [mReq, url])
  {
  }

  /** A load ends with items or with an error, never both and never neither. */
  lemma ErrorOrItems(url: string, proxyEnabled: bool, env: Env)
    ensures var o := LoadOutcome(url, proxyEnabled, env);
      o.error.Some? <==> o.items == []
  {
    var v := IsValidTargetUrl(env.parseUrl(url));
    if v.valid && ManifestItemsOf(url, proxyEnabled, env) == [] {
      var mReq := ManifestRequest(url, proxyEnabled, env.enc);
      if proxyEnabled {
        var (s, reqs) := ProxyScrape(url, env);
        FinishErrorOrItems(s, true, [mReq] + reqs);
      } else {
        FinishErrorOrItems(DirectScrape(url, env), false, [mReq, url]);
      }
    }
  }

  /** A URL the validator refuses is never fetched, and its error is the validator's own message. */
  lemma InvalidNotFetched(url: string, proxyEnabled: bool, env: Env)
    requires !IsValidTargetUrl(env.parseUrl(url)).valid
    ensures var o := LoadOutcome(url, proxyEnabled, env);
      o.requests == [] && o.items == [] && o.error == IsValidTargetUrl(env.parseUrl(url)).error
  {
  }

  /** The manifest is asked first, and a non-empty manifest ends the load without scraping. */
  lemma ManifestFirst(url: string, proxyEnabled: bool, env: Env)
    requires IsValidTargetUrl(env.parseUrl(url)).valid
    ensures var o := LoadOutcome(url, proxyEnabled, env);
      && o.requests != [] && o.requests[0] == ManifestRequest(url, proxyEnabled, env.enc)
      && (ManifestItemsOf(url, proxyEnabled, env) != [] <==> o.manifestMode)
      && (o.manifestMode ==> o.requests == [ManifestRequest(url, proxyEnabled, env.enc)]
                             && o.items == ManifestItemsOf(url, proxyEnabled, env))
  {
    var mReq := ManifestRequest(url, proxyEnabled, env.enc);
    if ManifestItemsOf(url, proxyEnabled, env) != [] {
      LoadFromManifest(url, proxyEnabled, env);
    } else {
      LoadFromPage(url, proxyEnabled, env);
      if proxyEnabled {
        var (sc, reqs) := ProxyScrape(url, env);
        FinishErrorOrItems(sc, true, [mReq] + reqs);
      } else {
        FinishErrorOrItems(DirectScrape(url, env), false, [mReq, url]);
      }
    }
  }

  /** Every listed item of a load is an image or a video. */
  lemma OnlyMedia(url: string, proxyEnabled: bool, env: Env)
    ensures forall it :: it in LoadOutcome(url, proxyEnabled, env).items ==> it.kind == Image || it.kind == Video
  {
    var v := IsValidTargetUrl(env.parseUrl(url));
    if v.valid && ManifestItemsOf(url, proxyEnabled, env) == [] {
      forall html: string | Listing(env.anchors(html), url, env.clock, env.decode).Some?
        ensures forall it :: it in Listing(env.anchors(html), url, env.clock, env.decode).value ==>
                  it.kind == Image || it.kind == Video
      {
        ListingItems(env.anchors(html), url, env.clock, env.decode);
      }
    }
  }

  /** A 401 or 403 from the first proxy is reported as such, and the second proxy is never asked. */
  lemma AuthStopsChain(url: string, env: Env)
    requires IsValidTargetUrl(env.parseUrl(url)).valid
    requires ManifestItemsOf(url, true, env) == []
    requires env.fetch(ProxyUrls(url, env.enc)[0]) == Response(401, "")
          || env.fetch(ProxyUrls(url, env.enc)[0]) == Response(403, "")
    ensures var o := LoadOutcome(url, true, env);
      && o.requests == [ManifestRequest(url, true, env.enc), ProxyUrls(url, env.enc)[0]]
      && o.error == Some(if env.fetch(ProxyUrls(url, env.enc)[0]).status == 401 then AuthMessage else ForbiddenMessage)
      && o.usingProxy
  {
    var msg := if env.fetch(ProxyUrls(url, env.enc)[0]).status == 401 then AuthMessage else ForbiddenMessage;
    ProxyAuthScrape(url, env);
    LoadFromPage(url, true, env);
    assert LoadOutcome(url, true, env)
        == Finish(ScrapeFailed(msg), true, [ManifestRequest(url, true, env.enc)] + [ProxyUrls(url, env.enc)[0]]);
  }

  /** The proxy stage alone: an authentication error from the first transport ends it at once. */
  lemma ProxyAuthScrape(url: string, env: Env)
    requires env.fetch(ProxyUrls(url, env.enc)[0]) == Response(401, "")
          || env.fetch(ProxyUrls(url, env.enc)[0]) == Response(403, "")
    ensures ProxyScrape(url, env)
         == (ScrapeFailed(if env.fetch(ProxyUrls(url, env.enc)[0]).status == 401 then AuthMessage else ForbiddenMessage),
             [ProxyUrls(url, env.enc)[0]])
  {
    var urls := ProxyUrls(url, env.enc);
    var rs := Responses(urls, env.fetch);
    ChainStopsAtFatal(rs, NoProxyWorked, 0);
    assert urls[..1] == [urls[0]];
    var cause := Attempt(rs[0]).cause;
    assert cause == (if rs[0].status == 401 then AuthRequired else AccessForbidden);
  }

  /** In direct mode every failure of the page fetch gives the Turbo Proxy hint. */
  lemma DirectFailureHint(url: string, env: Env)
    requires IsValidTargetUrl(env.parseUrl(url)).valid
    requires ManifestItemsOf(url, false, env) == []
    requires !Ok(env.fetch(url))
    ensures LoadOutcome(url, false, env).error == Some(DirectFailureMessage)
    ensures LoadOutcome(url, false, env).requests == [ManifestUrl(url), url]
  {
  }

  /** The fallback "URL invalide" is never shown: every refusal carries its own message. */
  lemma FallbackNeverShown(url: string, proxyEnabled: bool, env: Env)
    ensures LoadOutcome(url, proxyEnabled, env).error != Some(InvalidFallbackMessage)
  {
    var v := IsValidTargetUrl(env.parseUrl(url));
    if !v.valid {
      LoadRefused(url, proxyEnabled, env);
      RefusalHasMessage(env.parseUrl(url));
    } else if ManifestItemsOf(url, proxyEnabled, env) != [] {
      LoadFromManifest(url, proxyEnabled, env);
    } else {
      LoadFromPage(url, proxyEnabled, env);
      var mReq := ManifestRequest(url, proxyEnabled, env.enc);
      if proxyEnabled {
        var (s, reqs) := ProxyScrape(url, env);
        ProxyScrapeMessages(url, env);
        FinishMessage(s, true, [mReq] + reqs);
      } else {
        FinishMessage(DirectScrape(url, env), false, [mReq, url]);
      }
    }
  }

  /** A refusal always carries one of the validator's own messages. */
  lemma RefusalHasMessage(parsed: Option<ParsedUrl>)
    requires !IsValidTargetUrl(parsed).valid
    ensures IsValidTargetUrl(parsed).error.Some?
    ensures IsValidTargetUrl(parsed).error.value != InvalidFallbackMessage
  {
    var v := IsValidTargetUrl(parsed);
    assert v.error.value in [MalformedMessage, ProtocolMessage, LocalMessage, PrivateMessage];
  }

  /** The error of a finished scrape is the no-media message or the message the scrape failed with. */
  lemma FinishMessage(s: Scrape, usingProxy: bool, requests: seq<string>)
    requires s.ScrapeFailed? ==> s.message != InvalidFallbackMessage
    ensures Finish(s, usingProxy, requests).error != Some(InvalidFallbackMessage)
  {
  }

  /** A failed proxy scrape reports one of the three proxy-mode messages. */
  lemma ProxyScrapeMessages(url: string, env: Env)
    ensures var s := ProxyScrape(url, env).0;
      s.ScrapeFailed? ==> s.message in [AuthMessage, ForbiddenMessage, ProxyFailureMessage]
  {
  }

  /** The manifest stage: one request, every failure swallowed. */
  method LoadManifest(url: string, proxyEnabled: bool, env: Env) returns (items: seq<MediaItem>, request: string)
    ensures items == ManifestItemsOf(url, proxyEnabled, env)
    ensures request == ManifestRequest(url, proxyEnabled, env.enc)
  {
    items := [];
    request := if proxyEnabled then CorsProxy + env.enc(ManifestUrl(url)) else ManifestUrl(url);
    var response := env.fetch(request);
    if Ok(response) {
      var json := env.parseJson(response.body);
      if json.Some? {
        items := ParseManifestJson(json.value, url, env.clock);
      }
    }
  }

  /** Proxy mode: the transport chain, then the parse, with the `catch` mapping errors to messages. */
  method ScrapeViaProxy(url: string, env: Env) returns (scrape: Scrape, requests: seq<string>)
    ensures (scrape, requests) == ProxyScrape(url, env)
  {
    var fetched;
    fetched, requests := FetchHtmlViaProxy(url, env.enc, env.fetch);
    if fetched.Body? {
      var listed := ParseApacheDirectoryHtml(env.anchors(fetched.html), url, env.clock, env.decode);
      scrape := if listed.Some? then Scraped(listed.value) else ScrapeFailed(ProxyFailureMessage);
    } else {
      scrape := ScrapeFailed(ProxyErrorMessage(fetched.cause));
    }
  }

  /** Direct mode: one request for the page itself; any failure gives the Turbo Proxy hint. */
  method ScrapeDirect(url: string, env: Env) returns (scrape: Scrape)
    ensures scrape == DirectScrape(url, env)
  {
    var page := env.fetch(url);
    if !Ok(page) {
      scrape := ScrapeFailed(DirectFailureMessage);
    } else {
      var listed := ParseApacheDirectoryHtml(env.anchors(page.body), url, env.clock, env.decode);
      scrape := if listed.Some? then Scraped(listed.value) else ScrapeFailed(DirectFailureMessage);
    }
  }

  /**
   * The body of handleLoadUrl, from validation to the final message: the
   * outcome it reaches is the one `LoadOutcome` describes.
   */
  method RunLoad(url: string, proxyEnabled: bool, env: Env) returns (o: Outcome)
    ensures o == LoadOutcome(url, proxyEnabled, env)
  {
    var validation := IsValidTargetUrl(env.parseUrl(url));
    if !validation.valid {
      LoadRefused(url, proxyEnabled, env);
      return Outcome([], Some(validation.error.GetOr(InvalidFallbackMessage)), false, false, []);
    }

    var manifestItems, manifestRequest := LoadManifest(url, proxyEnabled, env);
    var requests := [manifestRequest];
    if |manifestItems| > 0 {
      LoadFromManifest(url, proxyEnabled, env);
      return Outcome(manifestItems, None, true, false, requests);
    }

    var scrape: Scrape;
    if proxyEnabled {
      var proxyRequests;
      scrape, proxyRequests := ScrapeViaProxy(url, env);
      requests := requests + proxyRequests;
    } else {
      scrape := ScrapeDirect(url, env);
      requests := requests + [url];
    }
    LoadFromPage(url, proxyEnabled, env);

    match scrape
    case ScrapeFailed(message) =>
      o := Outcome([], Some(message), false, proxyEnabled, requests);
    case Scraped(parsedItems) =>
      if |parsedItems| == 0 {
        o := Outcome([], Some(NoMediaMessage), false, proxyEnabled, requests);
      } else {
        o := Outcome(parsedItems, None, false, proxyEnabled, requests);
      }
  }

  // ---------------------------------------------------------------------------
  // The application state

  class AppState {
    var items: seq<MediaItem>
    var error: Option<string>
    var loadedUrl: string
    var lastValidUrl: string
    var usingProxy: bool
    var isManifestMode: bool
    var isLoading: bool
    var proxyEnabled: bool

    /** The initial state; the page is loading at once when it was opened with a `url` parameter. */
    constructor (hasUrlParameter: bool)
      ensures items == [] && error == None && loadedUrl == "" && lastValidUrl == ""
      ensures !usingProxy && !isManifestMode && proxyEnabled
      ensures isLoading == hasUrlParameter
    {
      items := [];
      error := None;
      loadedUrl := "";
      lastValidUrl := "";
      usingProxy := false;
      isManifestMode := false;
      isLoading := hasUrlParameter;
      proxyEnabled := true;
    }

    /** The Turbo Proxy switch of the URL bar. */
    method SetProxyEnabled(enabled: bool)
      modifies this
      ensures proxyEnabled == enabled
      ensures items == old(items) && error == old(error) && loadedUrl == old(loadedUrl)
      ensures lastValidUrl == old(lastValidUrl) && usingProxy == old(usingProxy)
      ensures isManifestMode == old(isManifestMode) && isLoading == old(isLoading)
    {
      proxyEnabled := enabled;
    }

    /** The start of a load: the spinner is shown and the previous results are cleared. */
    method StartLoading()
      modifies this
      ensures isLoading && error == None && items == [] && !usingProxy && !isManifestMode
      ensures proxyEnabled == old(proxyEnabled)
      ensures loadedUrl == old(loadedUrl) && lastValidUrl == old(lastValidUrl)
    {
      isLoading := true;
      error := None;
      items := [];
      usingProxy := false;
      isManifestMode := false;
    }

    /**
     * The end of a load: the outcome is shown, the loaded URL is recorded when
     * items were found, and the spinner is hidden.
     */
    method Show(o: Outcome, url: string)
      modifies this
      ensures items == o.items && error == o.error
      ensures isManifestMode == o.manifestMode && usingProxy == o.usingProxy
      ensures o.items != [] ==> loadedUrl == url && lastValidUrl == url
      ensures o.items == [] ==> loadedUrl == old(loadedUrl) && lastValidUrl == old(lastValidUrl)
      ensures proxyEnabled == old(proxyEnabled) && !isLoading
    {
      error := o.error;
      items := o.items;
      usingProxy := o.usingProxy;
      isManifestMode := o.manifestMode;
      if o.items != [] {
        loadedUrl := url;
        lastValidUrl := url;
      }
      isLoading := false;
    }

    /**
     * handleLoadUrl. Returns the URLs fetched, in order. The end state is the
     * load's outcome; the loaded URL is recorded only when items were found.
     */
    method HandleLoadUrl(inputUrl: string, env: Env) returns (requests: seq<string>)
      modifies this
      ensures proxyEnabled == old(proxyEnabled) && !isLoading
      ensures var url := NormalizeUrl(inputUrl);
        var o := LoadOutcome(url, proxyEnabled, env);
        && items == o.items && error == o.error && requests == o.requests
        && isManifestMode == o.manifestMode && usingProxy == o.usingProxy
        && (o.items != [] ==> loadedUrl == url && lastValidUrl == url)
        && (o.items == [] ==> loadedUrl == old(loadedUrl) && lastValidUrl == old(lastValidUrl))
    {
      var url := NormalizeUrl(inputUrl);
      StartLoading();
      var o := RunLoad(url, proxyEnabled, env);
      requests := o.requests;
      Show(o, url);
    }
  }
}
