/** The React Query cache keys of src/lib/queryKeys.ts. A key is a sequence
    of parts; the query client scopes and invalidates entries by key prefix,
    so what matters is which keys share a prefix and which coincide. */
module QueryKeys {
  import opened Wrappers

  /** The games-list filter object as it appears inside a key. */
  datatype GamesFilters = GamesFilters(search: Option<string>, status: Option<string>, team: Option<string>)

  /** One element of a key tuple: a string or the filter object. */
  datatype KeyPart = Str(s: string) | Filters(filters: GamesFilters)

  type QueryKey = seq<KeyPart>

  predicate IsPrefix(p: QueryKey, k: QueryKey)
  {
    |p| <= |k| && k[..|p|] == p
  }

  /** `queryKeys.games.all`. */
  const GamesAll: QueryKey := [Str("games")]

  /** `queryKeys.games.list(filters)`. */
  function GamesList(filters: GamesFilters): (k: QueryKey)
    ensures IsPrefix(GamesAll, k) && |k| == 3
    ensures k[1] == Str("list") && k[2] == Filters(filters)
  {
    GamesAll + [Str("list"), Filters(filters)]
  }

  /** `queryKeys.games.detail(slug)`. */
  function GamesDetail(slug: string): (k: QueryKey)
    ensures IsPrefix(GamesAll, k) && |k| == 3
    ensures k[1] == Str("detail") && k[2] == Str(slug)
  {
    GamesAll + [Str("detail"), Str(slug)]
  }

  /** `queryKeys.games.count()`. */
  function GamesCount(): (k: QueryKey)
    ensures IsPrefix(GamesAll, k) && |k| == 2 && k[1] == Str("count")
  {
    GamesAll + [Str("count")]
  }

  /** `queryKeys.games.teams()`. */
  function GamesTeams(): (k: QueryKey)
    ensures IsPrefix(GamesAll, k) && |k| == 2 && k[1] == Str("teams")
  {
    GamesAll + [Str("teams")]
  }

  /** `queryKeys.github.release`. */
  const GithubRelease: QueryKey := [Str("github"), Str("release")]

  /** Every key of the `games` family. */
  ghost predicate IsGamesKey(k: QueryKey)
  {
    (exists f :: k == GamesList(f)) || (exists s :: k == GamesDetail(s))
    || k == GamesCount() || k == GamesTeams()
  }

  /** Invalidating `games.all` reaches every games key and never the release
      key: they differ in their first element. */
  lemma GamesKeysShareRoot(k: QueryKey)
    requires IsGamesKey(k)
    ensures IsPrefix(GamesAll, k) && k[0] == Str("games")
    ensures !IsPrefix(GamesAll, GithubRelease) && !IsPrefix(k, GithubRelease) && !IsPrefix(GithubRelease, k)
  {
    assert GithubRelease[0] != k[0];
    assert GithubRelease[..1][0] != GamesAll[0];
  }

  /** Two list queries share a cache entry exactly when their filters are
      equal. */
  lemma GamesListInjective(f: GamesFilters, g: GamesFilters)
    ensures GamesList(f) == GamesList(g) <==> f == g
  {
    if GamesList(f) == GamesList(g) {
      assert GamesList(f)[2] == GamesList(g)[2];
    }
  }

  /** Two detail queries share a cache entry exactly when their slugs are
      equal. */
  lemma GamesDetailInjective(s: string, t: string)
    ensures GamesDetail(s) == GamesDetail(t) <==> s == t
  {
    if GamesDetail(s) == GamesDetail(t) {
      assert GamesDetail(s)[2] == GamesDetail(t)[2];
    }
  }

  /** The four games builders never produce the same key. */
  lemma GamesKeysDistinct(f: GamesFilters, s: string)
    ensures GamesList(f) != GamesDetail(s)
    ensures GamesCount() != GamesTeams()
    ensures GamesList(f) != GamesCount() && GamesList(f) != GamesTeams()
    ensures GamesDetail(s) != GamesCount() && GamesDetail(s) != GamesTeams()
    ensures GamesAll != GamesCount() && GamesAll != GamesTeams()
    ensures GamesAll != GamesList(f) && GamesAll != GamesDetail(s)
  {
    assert GamesList(f)[1] != GamesDetail(s)[1];
    assert GamesCount()[1] != GamesTeams()[1];
  }
}
