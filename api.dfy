/**
 * Base-URL resolution of the HTTP client (QR_Code_Question/src/lib/api.ts).
 * The build-time environment and the browser window are parameters.
 */
module Api {
  import opened Wrappers

  /** The parts of `new URL(window.location.origin)` the resolver reads. */
  datatype Location = Location(protocol: string, hostname: string, port: string)

  predicate EndsWithSlash(url: string) {
    |url| > 0 && url[|url| - 1] == '/'
  }

  /** `url.replace(/\/$/, "")`: removes one trailing `/`, if there is one. */
  function SanitizeUrl(url: string): (r: string)
    ensures EndsWithSlash(url) ==> |r| == |url| - 1 && url == r + "/"
    ensures !EndsWithSlash(url) ==> r == url
  {
    if EndsWithSlash(url) then url[..|url| - 1] else url
  }

  /** Only one slash goes: a URL ending in two keeps one of them. */
  lemma SanitizeStripsOnlyOne(base: string)
    ensures SanitizeUrl(base + "//") == base + "/"
  {
    assert (base + "//")[..|base| + 1] == base + "/";
  }

  const BackendPort: string := "8000"
  const FallbackBaseUrl: string := "http://localhost:8000"

  /** `if (envUrl)`: undefined and the empty string both fall through. */
  predicate Truthy(env: Option<string>) {
    env.Some? && env.value != ""
  }

  /** `resolveApiBaseUrl`, with `VITE_API_URL` and `window` passed in. */
  function ResolveApiBaseUrl(envUrl: Option<string>, window: Option<Location>): (r: string)
    ensures Truthy(envUrl) ==> r == SanitizeUrl(envUrl.value)
    ensures !Truthy(envUrl) && window.Some? ==>
      r == window.value.protocol + "//" + window.value.hostname + ":" + BackendPort
    ensures !Truthy(envUrl) && window.None? ==> r == FallbackBaseUrl
  {
    if Truthy(envUrl) then SanitizeUrl(envUrl.value)
    else if window.Some? then
      var current := window.value;
      if current.port == "" || current.port == "80" || current.port == "443" then
        current.protocol + "//" + current.hostname + ":" + BackendPort
      else
        current.protocol + "//" + current.hostname + ":" + BackendPort
    else FallbackBaseUrl
  }

  /** The page's own port never matters: both port branches give the same URL. */
  lemma ResolveIgnoresPort(envUrl: Option<string>, loc: Location, port: string)
    ensures ResolveApiBaseUrl(envUrl, Some(loc)) == ResolveApiBaseUrl(envUrl, Some(loc.(port := port)))
  {
  }

  /** A configured URL never ends in a slash unless it ended in two. */
  lemma ResolvedEnvUrlNoTrailingSlash(envUrl: string, window: Option<Location>)
    requires envUrl != "" && !(|envUrl| >= 2 && envUrl[|envUrl| - 2..] == "//")
    ensures !EndsWithSlash(ResolveApiBaseUrl(Some(envUrl), window))
  {
    if EndsWithSlash(envUrl) && |envUrl| >= 2 {
      assert envUrl[|envUrl| - 2..] == [envUrl[|envUrl| - 2], envUrl[|envUrl| - 1]];
    }
  }
}
