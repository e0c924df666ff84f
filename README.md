# lb-landing core logic in Dafny

This project is a Dafny model of the logic behind a Next.js catalogue site for
game translations. It covers eight parts:

- **Catalogue query layer** (`games.dfy`): validating and mapping rows of the
  `games_grouped` view, and choosing between the database-paged path and the
  filter-in-memory path. It also covers the page arithmetic
  (`total`, `hasMore`, `nextOffset`), infinite-query paging via
  `getNextPageParam`, and the de-duplicated team list.
- **Release data** (`releases.dfy`, `github_release.dfy`): summing download
  counts over every asset of every release, and picking download links by file
  suffix. It also derives the displayed version and classifies the user agent.
- **Release API route** (`release_route.dfy`): a read-through cache, modelled
  as an `EdgeCache` object holding a map from request URL to response, in front
  of an upstream `GitHubApi` object.
- **Fundraising bar** (`fundraising.dfy`): the render guard, the rounded and
  clamped percentage, and the completion flag, in exact integer arithmetic.
- **Revalidation endpoint** (`revalidate.dfy`): the secret check, body and slug
  validation, and the pages marked stale. A `PageCache` log records them, and
  it must match the returned `paths`.
- **Image URLs** (`images.dfy`): full URL versus storage path,
  leading-slash removal, and the cache-busting separator.
- **Filter bar** (`games_search.dfy`): the case-insensitive team filter,
  paging through it 20 at a time, and the status option fallback. The handlers
  are methods of a `SearchState` class.
- **Query keys** (`query_keys.dfy`): the React Query key builders, with the
  prefix and distinctness facts that cache scoping relies on.

`wrappers.dfy`, `seqs.dfy` and `strings.dfy` hold the shared building blocks:
`Option` and `Result`, and the `filter`, `slice`, `Set` and string operations
that the code takes from JavaScript.

Inputs that come from outside the program are parameters of the model:
- the database, as a function from query to response;
- the upstream HTTP answers;
- the user agent;
- `teamToSlug`;
- the timestamp rendering of `new Date(updatedAt).getTime()`;
- scroll metrics.

## Model

| member | source | states |
|---|---|---|
| Games.ParseTranslations | src/hooks/useGames.ts:33-36 | a non-array `translations` value gives the empty list; an array is kept as it is |
| Games.IsValidGameRow | src/hooks/useGames.ts:26-30 | a row is valid exactly when both its slug and its name are present; `ValidRows` and `ReturnedGames` state what the filter on it guarantees |
| Games.MapRowToGameGroup | src/hooks/useGames.ts:39-48 | slug, name and image paths are copied; `isAdult` holds exactly when the row says `true` (null reads as false); translations are the parsed JSON |
| Games.MapRows | src/hooks/useGames.ts:79 | mapping keeps the length, and entry `i` is the mapping of row `i` |
| Games.MapRowsOrigin | src/hooks/useGames.ts:79 | every mapped game comes from a valid row of the input |
| Games.MapRowsConcat | src/hooks/useGames.ts:79 | mapping a concatenation gives the concatenation of the mappings |
| Games.ValidRows | src/hooks/useGames.ts:26-30 | a row is kept exactly when it is in the input and has both slug and name |
| Games.MatchingRows | src/hooks/useGames.ts:115-133 | a row is kept exactly when it is valid and passes the status and team predicates |
| Games.QueryFor | src/hooks/useGames.ts:59-71 | a full query exactly when the filter path is taken; otherwise the inclusive range `[offset, offset+limit-1]`; the name search is used only when non-empty |
| Games.FilterAndSlice | src/hooks/useGames.ts:135-145 | total is the number of matching valid rows; the page has `min(limit, total-offset)` games (0 past the end), game `i` being matching row `offset+i` mapped; `hasMore` is `offset+limit < total` and `nextOffset` is `offset+limit` |
| Games.FetchGamesGroupedWithFilter | src/hooks/useGames.ts:92-146 | an error exactly when the query reports one, with its message; otherwise the filtered and sliced page of the returned rows |
| Games.GamesOfMatchingRows | src/hooks/useGames.ts:115-138 | a stretch of mapped matching rows has at most `limit` games, each from a valid row and passing both filters |
| Games.FilterPathReturned | src/hooks/useGames.ts:115-138 | a filter-path page has at most `limit` games, each from a valid row and passing both filters |
| Games.FetchGamesGrouped | src/hooks/useGames.ts:51-89 | an error exactly when the issued query reports one, with its message; on success `hasMore` is `offset+limit < total` and `nextOffset` is `offset+limit`; on the database path total is `count ?? 0` |
| Games.ReturnedGames | src/hooks/useGames.ts:79-138 | on both paths every game maps a row whose slug and name are present; on the filter path there are at most `limit` games and each passes the status and team filters |
| Games.ValidGamesOrigin | src/hooks/useGames.ts:79 | every database-path game comes from a valid row |
| Games.PathChoice | src/hooks/useGames.ts:59-61 | the filter path is taken exactly when status is non-empty and not "all", or team is non-empty, and then it computes what `fetchGamesGroupedWithFilter` does |
| Games.GetNextPageParam | src/hooks/useGames.ts:160-161 | a next page exactly when `hasMore`, at `nextOffset` |
| Games.UseGamesInfinite | src/hooks/useGames.ts:151-158 | the query function fetches `GamesPerPage` (12) games at the page parameter with the hook's search and filters; `FilteredServesPages` and `PagedServesPages` state what it serves |
| Games.InfiniteGames | src/hooks/useGames.ts:148-161 | the games shown after a number of fetches: each page's games, followed while `getNextPageParam` gives an offset; its meaning is stated by `InfiniteGamesStep` and `PagesFrom` |
| Games.InfiniteGamesStep | src/hooks/useGames.ts:151-161 | one fetch contributes its games, followed by the pages from `nextOffset` while `hasMore` holds |
| Games.PagesFrom | src/hooks/useGames.ts:151-161 | following `nextOffset` through a query function that serves row ranges yields the view of the next rows, with no gap and no repeat |
| Games.ValidGamesConcatenative | src/hooks/useGames.ts:79 | filtering and mapping rows works range by range |
| Games.FilteredPage | src/hooks/useGames.ts:92-146 | against a database holding one ordered row list, a filter-path page is the slice `[offset, offset+limit)` of the filtered games, with their count as total |
| Games.FilteredServesPages | src/hooks/useGames.ts:148-161 | the filter-path query function of the infinite query serves the filtered list page by page |
| Games.PagedPage | src/hooks/useGames.ts:51-89 | against such a database, a database-path page maps the valid rows of the requested range, so it holds at most `limit` games, and the total is the row count |
| Games.PagedServesPages | src/hooks/useGames.ts:148-161 | the database-path query function serves the valid games of each row range |
| Games.FilteredPagingIsComplete | src/hooks/useGames.ts:138-161 | paging from offset 0 while `hasMore` holds concatenates to exactly the whole filtered list, in order |
| Games.PagedPagingIsComplete | src/hooks/useGames.ts:148-161 | paging the database path from offset 0 concatenates to exactly the valid rows of the view, mapped, in order |
| Games.UniqueTeams | src/hooks/useGames.ts:186-200 | a query error is passed on; otherwise the list has no duplicates and holds exactly the team values of the rows |
| Releases.CountDownloads | src/hooks/useGitHubRelease.ts:44-53 | the nested loop computes the sum of `download_count` over every asset of every release |
| Releases.TotalDownloads | src/hooks/useGitHubRelease.ts:48-52 | the reference sum of `download_count`, release by release and asset by asset; `TotalIsFlatSum` relates it to the flat sum over all assets |
| Releases.TotalIsFlatSum | src/app/api/github-releases/route.ts:25-33 | the per-release sum equals the sum over the flat list of all assets, so no asset is skipped or counted twice |
| GitHubRelease.FetchAllReleases | src/hooks/useGitHubRelease.ts:14-59 | a non-ok latest release is the error "Failed to fetch latest release"; otherwise the latest release is passed on, with the full download sum, or 0 when the list response is not ok |
| GitHubRelease.FirstWithSuffix | src/hooks/useGitHubRelease.ts:84-86 | finds the first index whose name ends with the suffix, or none when no name does |
| GitHubRelease.DownloadUrl | src/hooks/useGitHubRelease.ts:84-91 | the URL of the first asset whose name ends with the suffix; null exactly when none does |
| GitHubRelease.VersionOf | src/hooks/useGitHubRelease.ts:92 | the tag with its first "v" removed, wherever it occurs; a tag without "v" is unchanged |
| GitHubRelease.GetDownloadLinks | src/hooks/useGitHubRelease.ts:69-96 | no data gives all nulls and 0 downloads; otherwise each link is the first asset with "Setup.exe", ".dmg" or ".AppImage", the version drops the first "v", and the date and count pass through |
| GitHubRelease.ExampleNameSuffixes | src/hooks/useGitHubRelease.ts:84-86 | each launcher file name carries exactly its own platform suffix, and an unrelated file none |
| GitHubRelease.ExampleAssetIndices | src/hooks/useGitHubRelease.ts:84-86 | in a release of notes plus three installers, each suffix picks out its own installer |
| GitHubRelease.ClassificationExample | src/hooks/useGitHubRelease.ts:81-95 | such a release yields one link per platform; "v1.2.0" shows as "1.2.0" |
| GitHubRelease.VersionExample | src/hooks/useGitHubRelease.ts:92 | "v1.2.0" and "1.2.0" both display as "1.2.0" |
| GitHubRelease.UnrelatedAssetExample | src/hooks/useGitHubRelease.ts:84-95 | a release with only an unrelated asset has no download link |
| GitHubRelease.DetectOS | src/hooks/useGitHubRelease.ts:98-108 | no navigator gives unknown; otherwise the lower-cased agent is tested for "win", then "mac", then "linux", each result holding exactly under its condition |
| GitHubRelease.DetectOSPriority | src/hooks/useGitHubRelease.ts:101-103 | an agent containing "win" in any ASCII case is Windows, whatever else it contains |
| ReleaseRoute.CacheControlValue | src/app/api/github-releases/route.ts:58 | the header of a fresh response is `public, max-age=3600` |
| ReleaseRoute.ErrorResponse | src/app/api/github-releases/route.ts:65-74 | status 500, error "Failed to fetch releases" with the thrown message, no cache header |
| ReleaseRoute.FreshResponse | src/app/api/github-releases/route.ts:52-58 | status 200, body `{latest, totalDownloads}`, and the cache header |
| ReleaseRoute.EdgeCache.Match | src/app/api/github-releases/route.ts:44 | a hit exactly when the key is stored, giving the stored response |
| ReleaseRoute.EdgeCache.Put | src/app/api/github-releases/route.ts:62 | a working store writes the key alone; a failing store throws and changes nothing |
| ReleaseRoute.GitHubApi.FetchLatest | src/app/api/github-releases/route.ts:11-13 | answers with the upstream latest release and counts one request |
| ReleaseRoute.GitHubApi.FetchReleases | src/app/api/github-releases/route.ts:14-16 | answers with the upstream release list and counts one request |
| ReleaseRoute.FetchFromGitHub | src/app/api/github-releases/route.ts:9-36 | both requests are made; a non-ok latest release is an error; otherwise the latest release with the listed downloads (0 for a non-ok list) |
| ReleaseRoute.Get | src/app/api/github-releases/route.ts:38-75 | a hit returns the stored response with no upstream call and no cache change; a miss asks upstream; success stores the fresh response under the request URL and returns it; an upstream or store failure gives the 500 response and stores nothing; no other key changes |
| ReleaseRoute.GetTwice | src/app/api/github-releases/route.ts:44-64 | a miss followed by a request for the same URL asks upstream once and returns the same fresh response twice |
| Fundraising.RoundHalfUp | src/components/game-detail/FundraisingProgress.tsx:16 | the result is the integer nearest to `n/d`, halves rounded up |
| Fundraising.RoundHalfUpAtLeast | src/components/game-detail/FundraisingProgress.tsx:16 | rounding never goes below an integer lower bound of the quotient |
| Fundraising.RoundHalfUpNonNegative | src/components/game-detail/FundraisingProgress.tsx:16 | a non-negative amount rounds to a non-negative percentage |
| Fundraising.RoundHalfUpReaches | src/components/game-detail/FundraisingProgress.tsx:16 | the rounded quotient reaches `k` exactly when `n/d` is at least `k - 1/2`, which with the clamp at 100 decides when the bar shows 100% |
| Fundraising.FundraisingProgress | src/components/game-detail/FundraisingProgress.tsx:11-17 | nothing exactly when the goal is null or not positive; a null current is 0; the percentage is at most 100 and, below 100, is `100*current/goal` rounded half up; the percentage is 100 exactly when `current/goal` is at least 99.5%; completed exactly when current reaches the goal, and then the percentage is 100; non-negative current gives a non-negative percentage |
| Fundraising.DocumentedCases | src/components/game-detail/FundraisingProgress.tsx:11-17 | half-way shows 50% and is not complete; an overshoot is clamped to 100% and is complete; no goal or a zero goal renders nothing; no current amount counts as 0 |
| Fundraising.HundredPercentBeforeGoal | src/components/game-detail/FundraisingProgress.tsx:16-17 | 99.5% of the goal shows 100% while not completed |
| Revalidate.UnsetSecretRejectsAll | src/app/api/revalidate/route.ts:8 | with no configured secret, no request is authorized |
| Revalidate.OnlyTheSecretIsAccepted | src/app/api/revalidate/route.ts:8 | a request is authorized exactly when its header carries the configured secret |
| Revalidate.Authorized | src/app/api/revalidate/route.ts:8 | `secret !== process.env.REVALIDATE_SECRET` fails exactly when both values are present and equal; its lemmas state the consequences |
| Revalidate.TeamSlug | src/app/api/revalidate/route.ts:20 | a falsy team gives no team slug; otherwise `teamToSlug(team)` |
| Revalidate.PathsFor | src/app/api/revalidate/route.ts:30-35 | three paths with a team slug, two without; the team page comes first, then the game page, then "/games"; every path starts with "/games" |
| Revalidate.InvalidatedPaths | src/app/api/revalidate/route.ts:6-28 | nothing is invalidated for a bad secret, a malformed body or a missing or empty slug; otherwise the team page (if any), the game page and the list |
| Revalidate.PostResponse | src/app/api/revalidate/route.ts:5-42 | 401 "Invalid secret" exactly for a bad secret; 500 "Failed to revalidate" with the message for a malformed body (one `request.json()` rejects, or JSON `null`, which cannot be destructured); 400 "slug is required" for a missing slug; otherwise 200, listing exactly the invalidated paths |
| Revalidate.SuccessListsGamesLast | src/app/api/revalidate/route.ts:30-35 | a successful response lists the game page, then "/games", last |
| Revalidate.PageCache.RevalidatePath | src/app/api/revalidate/route.ts:21-28 | marking a path appends it to the log |
| Revalidate.Post | src/app/api/revalidate/route.ts:5-42 | the response is `PostResponse`, and the pages marked stale, in order, are exactly the invalidated paths it returns |
| Images.ImagesBaseUrl | src/lib/images.ts:4-5 | an unset or empty variable falls back to the default host |
| Images.CleanPath | src/lib/images.ts:29 | exactly one leading "/" is removed, if present |
| Images.IsFullUrl | src/lib/images.ts:20 | a path is a full URL exactly when it starts with "http://" or "https://" |
| Images.GetImageUrl | src/lib/images.ts:13-39 | a null or empty path gives null; a full URL is kept and, with a non-empty update time, gets "&v=" if it contains "?", else "?v=", plus the timestamp; a storage path becomes `base + "/" + cleanPath`, with "?v=" plus the timestamp when stamped |
| Images.ResultExtendsInput | src/lib/images.ts:20-38 | the result always starts with the full URL, or with `base + "/" + cleanPath` |
| Images.LeadingSlashIgnored | src/lib/images.ts:29-31 | a storage path with and without a leading slash gives the same URL |
| Images.StoredPathExample | src/lib/images.ts:29-38 | "/a.png" becomes "https://images.lblauncher.com/a.png" |
| Images.StampedPathExample | src/lib/images.ts:34-36 | a stamped storage path gets "?v=" |
| Images.StampedFullUrlExample | src/lib/images.ts:21-23 | a stamped full URL that already has a query gets "&v=" |
| Images.EmptyPathExample | src/lib/images.ts:17 | an empty path gives null even with an update time |
| GamesSearch.FilteredTeams | src/components/games/GamesSearch.tsx:46-50 | a blank search after trimming keeps every team; otherwise a team is kept exactly when its lower-cased name contains the lower-cased untrimmed search |
| GamesSearch.FilteredTeamsConcat | src/components/games/GamesSearch.tsx:49 | filtering a list is filtering its halves and joining the results, so the filter keeps the original order |
| GamesSearch.FilteredTeamsSingle | src/components/games/GamesSearch.tsx:47-49 | a single team is kept exactly when the search is blank or matches it |
| GamesSearch.VisibleTeams | src/components/games/GamesSearch.tsx:53-55 | the visible list is the prefix of the filtered list of length `min(teamsDisplayed, count)` |
| GamesSearch.HasMoreTeams | src/components/games/GamesSearch.tsx:57-59 | more teams remain exactly when fewer are displayed than filtered; `NoMoreMeansAllVisible` ties it to the visible list |
| GamesSearch.NoMoreMeansAllVisible | src/components/games/GamesSearch.tsx:57-59 | there are more teams exactly when some filtered team is not visible yet; no more means all are visible |
| GamesSearch.VisibleTeamsGrow | src/components/games/GamesSearch.tsx:53-55 | showing more teams only appends: what was visible stays visible, in place |
| GamesSearch.FilterIgnoresCase | src/components/games/GamesSearch.tsx:47-49 | a search and its lower-cased form select the same teams |
| GamesSearch.FooterCount | src/components/games/GamesSearch.tsx:271-273 | the footer shows the filtered count while a search is typed, else the number of teams |
| GamesSearch.FooterCountIsFilteredCount | src/components/games/GamesSearch.tsx:271-273 | both footer labels show the length of the filtered list |
| GamesSearch.FindStatus | src/components/games/GamesSearch.tsx:123 | finds the first option with the given value, or none exactly when no option has it |
| GamesSearch.SelectedStatusOption | src/components/games/GamesSearch.tsx:122-123 | the option with the status value if there is one, else the first option ("all") |
| GamesSearch.StatusSelection | src/components/games/GamesSearch.tsx:18-23 | known statuses select their own label and icon; unknown and empty statuses select "all" |
| GamesSearch.SearchState.constructor | src/components/games/GamesSearch.tsx:35-39 | both dropdowns closed, empty team search, one page of teams |
| GamesSearch.SearchState.HandleTeamSearchChange | src/components/games/GamesSearch.tsx:69-72 | a new search resets the page count to 20 |
| GamesSearch.SearchState.HandleTeamDropdownToggle | src/components/games/GamesSearch.tsx:75-82 | toggles the dropdown; closing clears the search and resets to 20; opening keeps both |
| GamesSearch.SearchState.HandleTeamScroll | src/components/games/GamesSearch.tsx:85-92 | adds 20 exactly when the list is mounted, more teams remain and the scroll is within 50px of the bottom; nothing else changes |
| GamesSearch.SearchState.ClearTeamSearch | src/components/games/GamesSearch.tsx:211 | empties the search and keeps the page count |
| GamesSearch.SearchState.HandleTeamSelect | src/components/games/GamesSearch.tsx:130-133 | reports the team and closes the dropdown, keeping the search |
| GamesSearch.SearchState.ToggleStatusDropdown | src/components/games/GamesSearch.tsx:153 | toggles the status dropdown alone |
| GamesSearch.SearchState.HandleStatusSelect | src/components/games/GamesSearch.tsx:125-128 | reports the status and closes the status dropdown |
| QueryKeys.GamesList | src/lib/queryKeys.ts:4-5 | `["games", "list", filters]` |
| QueryKeys.GamesDetail | src/lib/queryKeys.ts:6 | `["games", "detail", slug]` |
| QueryKeys.GamesCount | src/lib/queryKeys.ts:7 | `["games", "count"]` |
| QueryKeys.GamesTeams | src/lib/queryKeys.ts:8 | `["games", "teams"]` |
| QueryKeys.GamesKeysShareRoot | src/lib/queryKeys.ts:3-11 | every games key starts with "games"; neither it nor `games.all` is a prefix of the release key, nor the release key of it |
| QueryKeys.GamesListInjective | src/lib/queryKeys.ts:4-5 | two list keys are equal exactly when their filters are |
| QueryKeys.GamesDetailInjective | src/lib/queryKeys.ts:6 | two detail keys are equal exactly when their slugs are |
| QueryKeys.GamesKeysDistinct | src/lib/queryKeys.ts:3-8 | the list, detail, count and teams builders and `games.all` never produce the same key |

## Left out

- The Supabase query builder (`from`, `select`, `order`, `range`, `ilike`) is not modelled. The database is a function from query to response, assumed to apply the name search and the name order itself.
- All network I/O is left out: fetches, the `Promise.all` concurrency of the route and the JSON parsing of answers. Upstream answers are class fields or parameters, already parsed. So `FetchFromGitHub` models the failures of the release list only as a non-ok answer, which counts 0 downloads. A rejected fetch or a throwing `.json()` of either request reaches the route's `catch` and gives the 500 answer, which the model does not capture.
- The cache-key URL normalisation (`new URL(...)`, `new Request(...)`) is left out. The key is the request URL string.
- A throwing `cache.match` is outside the `try` and would escape as an unhandled exception. It is not modelled.
- Platform cache TTL expiry and React Query `staleTime` belong to foreign services and are left out.
- `console.error` logging is left out.
- Games.UniqueTeams: the `localeCompare(..., "uk")` collation sort is left out. The list is in first-occurrence order, so only de-duplication and the set of teams are stated.
- `useGamesCount` is left out. It issues one head query and returns its `count ?? 0`, the same reading as the database path's total.
- Games.InfiniteGames: the number of fetches is an explicit bound. The completeness lemmas ask for enough fetches to cover the list.
- Offsets and limits are natural numbers. JavaScript numbers could be negative or fractional.
- Fundraising.FundraisingProgress: IEEE floating point is not modelled. `Math.round((current / goal) * 100)` is exact integer round-half-up of `100*current/goal`, and amounts are integers.
- `Intl.NumberFormat`, `formatDate` and all JSX rendering are presentational and left out.
- `new Date(updatedAt).getTime()` is a function parameter rendering the timestamp. The image host is a parameter too, with `ImagesBaseUrl` for the environment fallback.
- Lower-casing (`toLowerCase`) is ASCII only. Unicode case mapping is not modelled. Trimming removes the full JavaScript set of white-space and line-terminator characters.
- `teamToSlug` is an uninterpreted function parameter. Its module, src/lib/transliterate, is not part of this model.
- Revalidate.Post: a `slug` or `team` that is a non-string JSON value is read as absent. A throwing `revalidatePath` (which would give the 500 answer) is not modelled.
- The DOM side of the filter bar is left out: focus, click-outside listeners, the 300 ms debounce of the name search, and the JSX.
- GamesSearch.SearchState.HandleTeamScroll takes the memoised filtered list and the scroll metrics as parameters, since they come from the render and the DOM.
- GamesList.tsx, redis.ts, the Cloudflare type declarations, the not-found page and the knip configuration are glue, I/O or static content, and are not part of this model.
