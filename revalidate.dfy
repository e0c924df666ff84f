/** The on-demand revalidation endpoint of src/app/api/revalidate/route.ts:
    the shared-secret check, the request-body validation, the pages it
    invalidates, and the JSON response it returns. */
module Revalidate {
  import opened Wrappers
  import opened Strings

  /** The parsed request body: `Malformed` when `request.json()` throws or
      its value cannot be destructured (JSON `null`), carrying the message of
      the error; otherwise the `slug` and `team` fields, `None` when absent
      or null. */
  datatype RequestBody = Malformed(message: string) | Body(slug: Option<string>, team: Option<string>)

  datatype ResponseBody =
    | Revalidated(paths: seq<string>)
    | ErrorBody(error: string, message: Option<string>)

  datatype JsonResponse = JsonResponse(status: int, body: ResponseBody)

  /** The header value and the configured secret must both be present and
      equal; two missing values differ, as `null !== undefined`. */
  predicate Authorized(headerSecret: Option<string>, envSecret: Option<string>)
  {
    headerSecret.Some? && envSecret.Some? && headerSecret.value == envSecret.value
  }

  /** With no secret configured, no request is ever authorized. */
  lemma UnsetSecretRejectsAll(headerSecret: Option<string>)
    ensures !Authorized(headerSecret, None)
  {
  }

  /** Only the exact configured secret is accepted. */
  lemma OnlyTheSecretIsAccepted(headerSecret: Option<string>, secret: string)
    ensures Authorized(headerSecret, Some(secret)) <==> headerSecret == Some(secret)
  {
  }

  /** `team ? teamToSlug(team) : null`, with the empty string standing for
      every falsy value. */
  function TeamSlug(team: Option<string>, teamToSlug: string -> string): (s: string)
    ensures team.None? || team.value == "" ==> s == ""
    ensures team.Some? && team.value != "" ==> s == teamToSlug(team.value)
  {
    if team.Some? && team.value != "" then teamToSlug(team.value) else ""
  }

  function GamePath(slug: string): string { "/games/" + slug }

  function TeamPath(slug: string, teamSlug: string): string { "/games/" + slug + "/" + teamSlug }

  const GamesListPath: string := "/games"

  /** The paths revalidated, in order: the team page when there is a team
      slug, then the game page, then the games list. */
  function PathsFor(slug: string, teamSlug: string): (paths: seq<string>)
    ensures |paths| == if teamSlug == "" then 2 else 3
    ensures paths[|paths| - 1] == GamesListPath
    ensures paths[|paths| - 2] == GamePath(slug)
    ensures teamSlug != "" ==> paths[0] == TeamPath(slug, teamSlug)
    ensures forall i :: 0 <= i < |paths| ==> StartsWith(paths[i], GamesListPath)
  {
    if teamSlug != "" then [TeamPath(slug, teamSlug), GamePath(slug), GamesListPath]
    else [GamePath(slug), GamesListPath]
  }

  /** The paths a request invalidates: none unless it is authorized and
      names a non-empty slug. */
  function InvalidatedPaths(headerSecret: Option<string>, envSecret: Option<string>,
                            body: RequestBody, teamToSlug: string -> string): (paths: seq<string>)
    ensures !Authorized(headerSecret, envSecret) ==> paths == []
    ensures body.Malformed? || body.slug.None? || body.slug.value == "" ==> paths == []
    ensures Authorized(headerSecret, envSecret) && body.Body? && body.slug.Some? && body.slug.value != "" ==>
      paths == PathsFor(body.slug.value, TeamSlug(body.team, teamToSlug))
  {
    if !Authorized(headerSecret, envSecret) || body.Malformed? || body.slug.None? || body.slug.value == "" then []
    else PathsFor(body.slug.value, TeamSlug(body.team, teamToSlug))
  }

  /** The response of `POST`, checked in the source's order: secret (401),
      body parse (500), slug (400), then success (200). */
  function PostResponse(headerSecret: Option<string>, envSecret: Option<string>,
                        body: RequestBody, teamToSlug: string -> string): (r: JsonResponse)
    ensures r.status == 401 <==> !Authorized(headerSecret, envSecret)
    ensures r.status == 401 ==> r.body == ErrorBody("Invalid secret", None)
    ensures r.status == 500 <==> Authorized(headerSecret, envSecret) && body.Malformed?
    ensures r.status == 500 ==> r.body == ErrorBody("Failed to revalidate", Some(body.message))
    ensures r.status == 400 <==> Authorized(headerSecret, envSecret) && body.Body? && (body.slug.None? || body.slug.value == "")
    ensures r.status == 400 ==> r.body == ErrorBody("slug is required", None)
    ensures r.status in {200, 400, 401, 500}
    ensures r.status == 200 <==> InvalidatedPaths(headerSecret, envSecret, body, teamToSlug) != []
    ensures r.status == 200 ==> r.body == Revalidated(InvalidatedPaths(headerSecret, envSecret, body, teamToSlug))
  {
    if !Authorized(headerSecret, envSecret) then JsonResponse(401, ErrorBody("Invalid secret", None))
    else if body.Malformed? then JsonResponse(500, ErrorBody("Failed to revalidate", Some(body.message)))
    else if body.slug.None? || body.slug.value == "" then JsonResponse(400, ErrorBody("slug is required", None))
    else JsonResponse(200, Revalidated(PathsFor(body.slug.value, TeamSlug(body.team, teamToSlug))))
  }

  /** A successful response lists exactly the pages it invalidated, the games
      list last. */
  lemma SuccessListsGamesLast(headerSecret: Option<string>, envSecret: Option<string>,
                              body: RequestBody, teamToSlug: string -> string)
    ensures var r := PostResponse(headerSecret, envSecret, body, teamToSlug);
      r.status == 200 ==>
        (r.body.Revalidated? && |r.body.paths| >= 2 &&
         r.body.paths[|r.body.paths| - 1] == GamesListPath &&
         r.body.paths[|r.body.paths| - 2] == GamePath(body.slug.value))
  {
  }

  /** The framework's page cache, reduced to the log of the paths marked for
      regeneration. */
  class PageCache {
    var revalidated: seq<string>

    constructor ()
      ensures revalidated == []
    {
      revalidated := [];
    }

    /** `revalidatePath`: marks one path stale. */
    method RevalidatePath(path: string)
      modifies this
      ensures revalidated == old(revalidated) + [path]
    {
      revalidated := revalidated + [path];
    }
  }

  /** `POST`: answers the request and, on success, marks the pages stale in
      the order the source does; a rejected request changes nothing. */
  method Post(headerSecret: Option<string>, envSecret: Option<string>,
              body: RequestBody, teamToSlug: string -> string, cache: PageCache)
    returns (resp: JsonResponse)
    modifies cache
    ensures resp == PostResponse(headerSecret, envSecret, body, teamToSlug)
    ensures cache.revalidated == old(cache.revalidated) + InvalidatedPaths(headerSecret, envSecret, body, teamToSlug)
  {
    if !Authorized(headerSecret, envSecret) {
      return JsonResponse(401, ErrorBody("Invalid secret", None));
    }
    if body.Malformed? {
      return JsonResponse(500, ErrorBody("Failed to revalidate", Some(body.message)));
    }
    if body.slug.None? || body.slug.value == "" {
      return JsonResponse(400, ErrorBody("slug is required", None));
    }
    var slug := body.slug.value;
    var teamSlug := TeamSlug(body.team, teamToSlug);
    if teamSlug != "" {
      cache.RevalidatePath(TeamPath(slug, teamSlug));
    }
    cache.RevalidatePath(GamePath(slug));
    cache.RevalidatePath(GamesListPath);
    resp := JsonResponse(200, Revalidated(PathsFor(slug, teamSlug)));
  }
}
