/** The release API route of src/app/api/github-releases/route.ts: a
    read-through cache in front of the GitHub releases API. The platform cache
    (`caches.default`) is an `EdgeCache` object holding a map from request URL
    to stored response; the upstream API is a `GitHubApi` object that answers
    with fixed results and counts the requests made to it. */
module ReleaseRoute {
  import opened Wrappers
  import opened Strings
  import opened Releases

  /** Freshness window advertised on a fresh response, in seconds. */
  const CacheTtlSeconds: nat := 3600

  /** The `Cache-Control` header of a fresh response. */
  function CacheControl(): string
  {
    "public, max-age=" + NatToString(CacheTtlSeconds)
  }

  lemma CacheControlValue()
    ensures CacheControl() == "public, max-age=3600"
  {
    assert NatToString(3600) == NatToString(360) + ['0'];
    assert NatToString(360) == NatToString(36) + ['0'];
    assert NatToString(36) == NatToString(3) + ['6'];
  }

  datatype Body =
    | ReleasesBody(latest: Release, totalDownloads: int)
    | ErrorBody(error: string, message: string)

  /** A JSON response: status, body and the `Cache-Control` header, if set. */
  datatype HttpResponse = HttpResponse(status: int, body: Body, cacheControl: Option<string>)

  /** The 500 answer of the `catch` block. */
  function ErrorResponse(message: string): (resp: HttpResponse)
    ensures resp.status == 500 && resp.body.ErrorBody? && resp.cacheControl.None?
    ensures resp.body.error == "Failed to fetch releases" && resp.body.message == message
  {
    HttpResponse(500, ErrorBody("Failed to fetch releases", message), None)
  }

  /** The response built from fresh upstream data. */
  function FreshResponse(data: AllReleasesData): (resp: HttpResponse)
    ensures resp.status == 200 && resp.cacheControl == Some(CacheControl())
    ensures resp.body == ReleasesBody(data.latest, data.totalDownloads)
  {
    HttpResponse(200, ReleasesBody(data.latest, data.totalDownloads), Some(CacheControl()))
  }

  /** The download count a release-list answer contributes. */
  function ListedDownloads(releases: Fetched<seq<Release>>): int
  {
    if releases.Success? then TotalDownloads(releases.body) else 0
  }

  /** The platform response cache, keyed by request URL. `putError` is the
      error a `put` currently throws, if the store is failing. */
  class EdgeCache {
    var entries: map<string, HttpResponse>
    var putError: Option<string>

    constructor (putError: Option<string>)
      ensures entries == map[] && this.putError == putError
    {
      entries := map[];
      this.putError := putError;
    }

    /** `cache.match(key)`. */
    method Match(key: string) returns (hit: Option<HttpResponse>)
      ensures hit.Some? <==> key in entries
      ensures hit.Some? ==> hit.value == entries[key]
    {
      hit := if key in entries then Some(entries[key]) else None;
    }

    /** `cache.put(key, resp)`: stores under `key` alone, or throws. */
    method Put(key: string, resp: HttpResponse) returns (err: Option<string>)
      modifies this`entries
      ensures err == putError
      ensures entries == if putError.None? then old(entries)[key := resp] else old(entries)
    {
      err := putError;
      if putError.None? {
        entries := entries[key := resp];
      }
    }
  }

  /** The upstream release API, answering every request with the same
      results and counting the requests. */
  class GitHubApi {
    const latest: Fetched<Release>
    const releases: Fetched<seq<Release>>
    var requests: nat

    constructor (latest: Fetched<Release>, releases: Fetched<seq<Release>>)
      ensures this.latest == latest && this.releases == releases && requests == 0
    {
      this.latest := latest;
      this.releases := releases;
      requests := 0;
    }

    /** `GET /releases/latest`. */
    method FetchLatest() returns (r: Fetched<Release>)
      modifies this`requests
      ensures r == latest && requests == old(requests) + 1
    {
      r := latest;
      requests := requests + 1;
    }

    /** `GET /releases?per_page=100`. */
    method FetchReleases() returns (r: Fetched<seq<Release>>)
      modifies this`requests
      ensures r == releases && requests == old(requests) + 1
    {
      r := releases;
      requests := requests + 1;
    }
  }

  /** `fetchFromGitHub`: both upstream requests are made; a non-ok latest
      release throws, a non-ok list counts as 0 downloads. */
  method FetchFromGitHub(api: GitHubApi) returns (r: Result<AllReleasesData, string>)
    modifies api`requests
    ensures api.requests == old(api.requests) + 2
    ensures r.Err? <==> api.latest.NotOk?
    ensures r.Err? ==> r.error == "Failed to fetch latest release"
    ensures r.Ok? ==> r.value == AllReleasesData(api.latest.body, ListedDownloads(api.releases))
  {
    var latestResponse := api.FetchLatest();
    var allReleasesResponse := api.FetchReleases();
    if latestResponse.NotOk? {
      return Err("Failed to fetch latest release");
    }
    var totalDownloads := 0;
    if allReleasesResponse.Success? {
      totalDownloads := CountDownloads(allReleasesResponse.body);
    }
    return Ok(AllReleasesData(latestResponse.body, totalDownloads));
  }

  /** `GET`: a hit returns the stored response and touches nothing else; a
      miss fetches upstream, and on success stores the fresh response under
      the request URL and returns it; an upstream or store failure gives the
      500 error response and stores nothing. */
  method Get(requestUrl: string, cache: EdgeCache, api: GitHubApi) returns (resp: HttpResponse)
    modifies cache`entries, api`requests
    ensures requestUrl in old(cache.entries) ==>
      && resp == old(cache.entries[requestUrl])
      && cache.entries == old(cache.entries)
      && api.requests == old(api.requests)
    ensures requestUrl !in old(cache.entries) ==> api.requests == old(api.requests) + 2
    ensures requestUrl !in old(cache.entries) && api.latest.NotOk? ==>
      resp == ErrorResponse("Failed to fetch latest release") && cache.entries == old(cache.entries)
    ensures requestUrl !in old(cache.entries) && api.latest.Success? ==>
      var stored := FreshResponse(AllReleasesData(api.latest.body, ListedDownloads(api.releases)));
      && (cache.putError.None? ==> resp == stored && cache.entries == old(cache.entries)[requestUrl := stored])
      && (cache.putError.Some? ==> resp == ErrorResponse(cache.putError.value) && cache.entries == old(cache.entries))
    ensures forall k :: k != requestUrl ==>
      (k in cache.entries <==> k in old(cache.entries)) && (k in cache.entries ==> cache.entries[k] == old(cache.entries[k]))
    ensures cache.putError == old(cache.putError)
  {
    var cachedResponse := cache.Match(requestUrl);
    if cachedResponse.Some? {
      return cachedResponse.value;
    }
    var data := FetchFromGitHub(api);
    if data.Err? {
      return ErrorResponse(data.error);
    }
    var response := FreshResponse(data.value);
    var putErr := cache.Put(requestUrl, response);
    if putErr.Some? {
      return ErrorResponse(putErr.value);
    }
    return response;
  }

  /** Two requests for the same URL against a working store and upstream:
      the first misses and fills the cache, the second is a hit, so upstream
      is asked once (its two endpoints) and both answers are equal. */
  method GetTwice(requestUrl: string, cache: EdgeCache, api: GitHubApi) returns (first: HttpResponse, second: HttpResponse)
    requires requestUrl !in cache.entries
    requires api.latest.Success? && cache.putError.None?
    modifies cache`entries, api`requests
    ensures api.requests == old(api.requests) + 2
    ensures first == second && first.status == 200
    ensures first.cacheControl == Some("public, max-age=3600")
  {
    first := Get(requestUrl, cache, api);
    second := Get(requestUrl, cache, api);
    CacheControlValue();
  }
}
