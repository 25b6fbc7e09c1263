/**
 * On-the-fly image optimisation through the wsrv.nl proxy: a URL is rewritten
 * into a proxy request unless it already is one, or is a local `blob:` URL.
 * `enc` stands for `encodeURIComponent`.
 */
module ImageOptimizer {
  import opened Text

  const ProxyEndpoint := "https://wsrv.nl/?url="
  const ThumbnailParams := "&w=500&output=webp&q=65"
  const FullScreenParams := "&output=webp&q=85"

  /** The guard shared by both rewrites: the URL already goes through the proxy, or is a blob. */
  predicate Optimized(url: string) {
    Contains(url, "wsrv.nl") || StartsWith(url, "blob:")
  }

  /** `r` is a proxy request for the encoded URL `e` with the query suffix `params`. */
  predicate ProxyRequest(r: string, e: string, params: string) {
    && |ProxyEndpoint| + |params| <= |r|
    && StartsWith(r, ProxyEndpoint)
    && EndsWith(r, params)
    && r[|ProxyEndpoint|..|r| - |params|] == e
  }

  /** Every proxy request names the proxy host, so it passes the guard. */
  lemma ProxyRequestOptimized(e: string, params: string)
    ensures Contains(ProxyEndpoint + e + params, "wsrv.nl")
    ensures Optimized(ProxyEndpoint + e + params)
  {
    assert ProxyEndpoint[8..15] == "wsrv.nl";
    ContainsInPrefix(ProxyEndpoint, e + params, "wsrv.nl", 8);
    assert ProxyEndpoint + e + params == ProxyEndpoint + (e + params);
  }

  lemma ProxyRequestParts(e: string, params: string)
    ensures ProxyRequest(ProxyEndpoint + e + params, e, params)
  {
    var r := ProxyEndpoint + e + params;
    assert r[..|ProxyEndpoint|] == ProxyEndpoint;
    assert r[|r| - |params|..] == params;
    assert r[|ProxyEndpoint|..|r| - |params|] == e;
  }

  /** getThumbnailUrl: a 500-pixel-wide WebP at quality 65. */
  function ThumbnailUrl(url: string, enc: string -> string): (r: string)
    ensures Optimized(url) ==> r == url
    ensures !Optimized(url) ==> ProxyRequest(r, enc(url), ThumbnailParams)
    ensures Optimized(r)
  {
    if Optimized(url) then url
    else
      ProxyRequestOptimized(enc(url), ThumbnailParams);
      ProxyRequestParts(enc(url), ThumbnailParams);
      ProxyEndpoint + enc(url) + ThumbnailParams
  }

  /** getFullScreenUrl: the full-size image as WebP at quality 85. */
  function FullScreenUrl(url: string, enc: string -> string): (r: string)
    ensures Optimized(url) ==> r == url
    ensures !Optimized(url) ==> ProxyRequest(r, enc(url), FullScreenParams)
    ensures Optimized(r)
  {
    if Optimized(url) then url
    else
      ProxyRequestOptimized(enc(url), FullScreenParams);
      ProxyRequestParts(enc(url), FullScreenParams);
      ProxyEndpoint + enc(url) + FullScreenParams
  }

  /** Rewriting a thumbnail again leaves it as it is. */
  lemma ThumbnailIdempotent(url: string, enc: string -> string)
    ensures ThumbnailUrl(ThumbnailUrl(url, enc), enc) == ThumbnailUrl(url, enc)
  {
  }

  lemma FullScreenIdempotent(url: string, enc: string -> string)
    ensures FullScreenUrl(FullScreenUrl(url, enc), enc) == FullScreenUrl(url, enc)
  {
  }

  /** A thumbnail used as a full-screen source is not rewritten a second time, and vice versa. */
  lemma FullScreenOfThumbnail(url: string, enc: string -> string)
    ensures FullScreenUrl(ThumbnailUrl(url, enc), enc) == ThumbnailUrl(url, enc)
    ensures ThumbnailUrl(FullScreenUrl(url, enc), enc) == FullScreenUrl(url, enc)
  {
  }

  /** The two rewrites differ only in their query suffix: the encoded URL is the same. */
  lemma SameEncodedSource(url: string, enc: string -> string)
    requires !Optimized(url)
    ensures var t, f := ThumbnailUrl(url, enc), FullScreenUrl(url, enc);
      t[|ProxyEndpoint|..|t| - |ThumbnailParams|] == f[|ProxyEndpoint|..|f| - |FullScreenParams|] == enc(url)
  {
  }

  /** A blob URL is used as it is. */
  lemma BlobUntouched(url: string, enc: string -> string)
    requires StartsWith(url, "blob:")
    ensures ThumbnailUrl(url, enc) == url && FullScreenUrl(url, enc) == url
  {
  }
}
