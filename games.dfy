/** The catalogue query layer of src/hooks/useGames.ts: validation and mapping
    of `games_grouped` view rows, the choice between the database-paged path and
    the filter-in-memory path, the page arithmetic, infinite-query paging and
    the team list.

    The database is abstract: a `Database` answers a `Query` (name search
    already applied, rows ordered by name) with the `{data, error, count}`
    triple that the Supabase client returns. */
module Games {
  import opened Wrappers
  import opened Seqs
  import opened Strings

  /** Page size used by `useGamesInfinite`. */
  const GamesPerPage: nat := 12

  /** One team's translation of a game, as stored in the view's JSON column. */
  datatype Translation = Translation(
    team: Option<string>,
    status: string,
    fundraisingCurrent: Option<int>,
    fundraisingGoal: Option<int>)

  /** The JSON `translations` column: an array of translations or anything else
      (null, an object, a scalar). */
  datatype TranslationsJson = TranslationsArray(items: seq<Translation>) | NotAnArray

  /** A row of the `games_grouped` view; every column is nullable. */
  datatype GamesGroupedRow = GamesGroupedRow(
    slug: Option<string>,
    name: Option<string>,
    bannerPath: Option<string>,
    thumbnailPath: Option<string>,
    isAdult: Option<bool>,
    translations: TranslationsJson)

  /** A catalogue entry handed to the presentation layer. */
  datatype GameGroup = GameGroup(
    slug: string,
    name: string,
    bannerPath: Option<string>,
    thumbnailPath: Option<string>,
    isAdult: bool,
    translations: seq<Translation>)

  datatype FetchGamesParams = FetchGamesParams(
    offset: nat,
    limit: nat,
    search: Option<string>,
    status: Option<string>,
    team: Option<string>)

  /** The `GamesGroupedResponse` of one page. */
  datatype GamesPage = GamesPage(games: seq<GameGroup>, total: int, hasMore: bool, nextOffset: nat)

  /** The two queries the layer issues against the view: a bounded range
      `[from, to]` (inclusive, with an exact count) or the whole result. */
  datatype Query =
    | RangeQuery(nameLike: Option<string>, from: int, to: int)
    | FullQuery(nameLike: Option<string>)

  datatype QueryResponse = QueryResponse(
    data: Option<seq<GamesGroupedRow>>,
    error: Option<string>,
    count: Option<int>)

  type Database = Query -> QueryResponse

  // ---------------------------------------------------------------------------
  // Rows

  /** `isValidGameRow`: both `slug` and `name` are present. */
  predicate IsValidGameRow(row: GamesGroupedRow)
  {
    row.slug.Some? && row.name.Some?
  }

  /** `parseTranslations`: anything but an array becomes the empty list. */
  function ParseTranslations(json: TranslationsJson): (ts: seq<Translation>)
    ensures json.NotAnArray? ==> ts == []
    ensures json.TranslationsArray? ==> ts == json.items
  {
    match json
    case TranslationsArray(items) => items
    case NotAnArray => []
  }

  /** `mapRowToGameGroup`: a null `is_adult` reads as `false`. */
  function MapRowToGameGroup(row: GamesGroupedRow): (g: GameGroup)
    requires IsValidGameRow(row)
    ensures Some(g.slug) == row.slug && Some(g.name) == row.name
    ensures g.bannerPath == row.bannerPath && g.thumbnailPath == row.thumbnailPath
    ensures g.isAdult <==> row.isAdult == Some(true)
    ensures g.translations == ParseTranslations(row.translations)
  {
    GameGroup(row.slug.value, row.name.value, row.bannerPath, row.thumbnailPath,
              row.isAdult.GetOr(false), ParseTranslations(row.translations))
  }

  /** `rows.map(mapRowToGameGroup)` over rows already known to be valid. */
  function MapRows(rows: seq<GamesGroupedRow>): (games: seq<GameGroup>)
    requires forall r :: r in rows ==> IsValidGameRow(r)
    ensures |games| == |rows|
    ensures forall i :: 0 <= i < |rows| ==> games[i] == MapRowToGameGroup(rows[i])
  {
    seq(|rows|, i requires 0 <= i < |rows| => MapRowToGameGroup(rows[i]))
  }

  /** `g` was produced from a row of `rows` whose slug and name are present. */
  ghost predicate FromValidRow(g: GameGroup, rows: seq<GamesGroupedRow>)
  {
    exists r :: r in rows && IsValidGameRow(r) && MapRowToGameGroup(r) == g
  }

  lemma MapRowsOrigin(rows: seq<GamesGroupedRow>, all: seq<GamesGroupedRow>)
    requires forall r :: r in rows ==> IsValidGameRow(r) && r in all
    ensures forall g :: g in MapRows(rows) ==> FromValidRow(g, all)
  {
    forall g | g in MapRows(rows) ensures FromValidRow(g, all) {
      var i :| 0 <= i < |MapRows(rows)| && MapRows(rows)[i] == g;
      assert rows[i] in all;
    }
  }

  lemma MapRowsConcat(a: seq<GamesGroupedRow>, b: seq<GamesGroupedRow>)
    requires forall r :: r in a + b ==> IsValidGameRow(r)
    ensures MapRows(a + b) == MapRows(a) + MapRows(b)
  {
    assert forall i :: 0 <= i < |a + b| ==> MapRows(a + b)[i] == (MapRows(a) + MapRows(b))[i];
  }

  /** The valid rows of `rows`, in order. */
  function ValidRows(rows: seq<GamesGroupedRow>): (valid: seq<GamesGroupedRow>)
    ensures forall r :: r in valid <==> r in rows && IsValidGameRow(r)
  {
    Filter(rows, IsValidGameRow)
  }

  // ---------------------------------------------------------------------------
  // Filters

  /** JavaScript truthiness of an optional string: present and non-empty. */
  predicate Truthy(s: Option<string>)
  {
    s.Some? && s.value != ""
  }

  /** `status && status !== "all"`. */
  predicate StatusFilterActive(status: Option<string>)
  {
    Truthy(status) && status.value != "all"
  }

  /** The condition under which `fetchGamesGrouped` delegates to the
      in-memory filter path. */
  predicate UsesFilterPath(p: FetchGamesParams)
  {
    StatusFilterActive(p.status) || Truthy(p.team)
  }

  /** `translations.some((t) => t.status === status)`. */
  predicate HasStatus(ts: seq<Translation>, status: string)
  {
    exists t :: t in ts && t.status == status
  }

  /** `translations.some((t) => t.team?.includes(team))`: a null team never
      matches. */
  predicate HasTeam(ts: seq<Translation>, team: string)
  {
    exists t :: t in ts && t.team.Some? && Contains(t.team.value, team)
  }

  /** The translation predicate of `fetchGamesGroupedWithFilter`. */
  predicate PassesFilters(ts: seq<Translation>, status: Option<string>, team: Option<string>)
  {
    (StatusFilterActive(status) ==> HasStatus(ts, status.value))
    && (Truthy(team) ==> HasTeam(ts, team.value))
  }

  predicate RowMatches(row: GamesGroupedRow, status: Option<string>, team: Option<string>)
  {
    PassesFilters(ParseTranslations(row.translations), status, team)
  }

  /** The valid rows that pass the translation filters, in source order. */
  function MatchingRows(rows: seq<GamesGroupedRow>, status: Option<string>, team: Option<string>): (m: seq<GamesGroupedRow>)
    ensures forall r :: r in m <==> r in rows && IsValidGameRow(r) && RowMatches(r, status, team)
  {
    Filter(ValidRows(rows), r => RowMatches(r, status, team))
  }

  /** The whole filtered list of the in-memory path, before slicing. */
  function MatchingGames(rows: seq<GamesGroupedRow>, status: Option<string>, team: Option<string>): seq<GameGroup>
  {
    MapRows(MatchingRows(rows, status, team))
  }

  // ---------------------------------------------------------------------------
  // Queries

  /** `if (search) query = query.ilike("name", ...)`: an empty search is no
      search. */
  function NameLike(search: Option<string>): Option<string>
  {
    if Truthy(search) then search else None
  }

  /** The one query the layer issues for `p`. */
  function QueryFor(p: FetchGamesParams): (q: Query)
    ensures q.FullQuery? <==> UsesFilterPath(p)
    ensures q.RangeQuery? ==> q.from == p.offset && q.to == p.offset + p.limit - 1
    ensures q.nameLike == NameLike(p.search)
  {
    if UsesFilterPath(p) then FullQuery(NameLike(p.search))
    else RangeQuery(NameLike(p.search), p.offset, p.offset + p.limit - 1)
  }

  /** The rows a response carries (`data ?? []`). */
  function RowsOf(resp: QueryResponse): seq<GamesGroupedRow>
  {
    resp.data.GetOr([])
  }

  /** The page the in-memory path cuts from the name-matching rows: the
      valid rows passing the translation filters, sliced at the offset, with
      their count as total. */
  function FilterAndSlice(rows: seq<GamesGroupedRow>, p: FetchGamesParams): (page: GamesPage)
    ensures var m := MatchingRows(rows, p.status, p.team);
      && page.total == |m|
      && |page.games| == (if p.offset < |m| then Min(p.limit, |m| - p.offset) else 0)
      && (forall i :: 0 <= i < |page.games| ==> page.games[i] == MapRowToGameGroup(m[p.offset + i]))
      && page.hasMore == (p.offset + p.limit < page.total)
      && page.nextOffset == p.offset + p.limit
  {
    var games := MatchingGames(rows, p.status, p.team);
    var total := |games|;
    GamesPage(Slice(games, p.offset, p.offset + p.limit), total, p.offset + p.limit < total, p.offset + p.limit)
  }

  /** `fetchGamesGroupedWithFilter`: fetch every name-matching row (a query
      error is passed on), then cut the page from them. */
  function FetchGamesGroupedWithFilter(p: FetchGamesParams, db: Database): (r: Result<GamesPage, string>)
    ensures var resp := db(FullQuery(NameLike(p.search)));
      && (r.Err? <==> resp.error.Some?)
      && (r.Err? ==> r.error == resp.error.value)
      && (r.Ok? ==> r.value == FilterAndSlice(RowsOf(resp), p))
  {
    var resp := db(FullQuery(NameLike(p.search)));
    if resp.error.Some? then Err(resp.error.value)
    else Ok(FilterAndSlice(RowsOf(resp), p))
  }

  /** Games mapped from a stretch of the matching rows come from valid rows
      and pass the filters. */
  lemma GamesOfMatchingRows(games: seq<GameGroup>, m: seq<GamesGroupedRow>, offset: nat, limit: nat,
                            rows: seq<GamesGroupedRow>, status: Option<string>, team: Option<string>)
    requires m == MatchingRows(rows, status, team)
    requires |games| == if offset < |m| then Min(limit, |m| - offset) else 0
    requires forall i :: 0 <= i < |games| ==> games[i] == MapRowToGameGroup(m[offset + i])
    ensures |games| <= limit
    ensures forall g :: g in games ==> FromValidRow(g, rows) && PassesFilters(g.translations, status, team)
  {
    forall g | g in games
      ensures FromValidRow(g, rows) && PassesFilters(g.translations, status, team)
    {
      var i :| 0 <= i < |games| && games[i] == g;
      assert m[offset + i] in m;
    }
  }

  /** `fetchGamesGrouped`: the in-memory path when a status or team filter is
      active, else one range query whose `count` gives the total. */
  function FetchGamesGrouped(p: FetchGamesParams, db: Database): (r: Result<GamesPage, string>)
    ensures var resp := db(QueryFor(p));
      && (r.Err? <==> resp.error.Some?)
      && (r.Err? ==> r.error == resp.error.value)
      && (r.Ok? ==>
            && r.value.hasMore == (p.offset + p.limit < r.value.total)
            && r.value.nextOffset == p.offset + p.limit
            && (!UsesFilterPath(p) ==> r.value.total == resp.count.GetOr(0)))
  {
    if UsesFilterPath(p) then FetchGamesGroupedWithFilter(p, db)
    else
      var resp := db(QueryFor(p));
      if resp.error.Some? then Err(resp.error.value)
      else
        var games := ValidGames(RowsOf(resp));
        var total := resp.count.GetOr(0);
        Ok(GamesPage(games, total, p.offset + p.limit < total, p.offset + p.limit))
  }

  /** On both paths every returned game was mapped from a row of the query's
      data whose slug and name are present; on the filter path the page holds
      at most `limit` games and every one passes the status and team
      filters. */
  lemma ReturnedGames(p: FetchGamesParams, db: Database)
    ensures var r := FetchGamesGrouped(p, db);
      r.Ok? ==>
        && (forall g :: g in r.value.games ==> FromValidRow(g, RowsOf(db(QueryFor(p)))))
        && (UsesFilterPath(p) ==>
              && |r.value.games| <= p.limit
              && forall g :: g in r.value.games ==> PassesFilters(g.translations, p.status, p.team))
  {
    var rows := RowsOf(db(QueryFor(p)));
    if UsesFilterPath(p) {
      FilterPathReturned(rows, p);
    } else {
      ValidGamesOrigin(rows);
    }
  }

  /** A filter-path page holds at most `limit` games, each from a valid row
      and passing the filters. */
  lemma FilterPathReturned(rows: seq<GamesGroupedRow>, p: FetchGamesParams)
    ensures var games := FilterAndSlice(rows, p).games;
      && |games| <= p.limit
      && forall g :: g in games ==> FromValidRow(g, rows) && PassesFilters(g.translations, p.status, p.team)
  {
    GamesOfMatchingRows(FilterAndSlice(rows, p).games, MatchingRows(rows, p.status, p.team), p.offset, p.limit,
                        rows, p.status, p.team);
  }

  /** Every database-path game comes from a valid row. */
  lemma ValidGamesOrigin(rows: seq<GamesGroupedRow>)
    ensures forall g :: g in ValidGames(rows) ==> FromValidRow(g, rows)
  {
    MapRowsOrigin(ValidRows(rows), rows);
  }

  /** The path choice depends on the status and team filters alone, and
      each path gives what its own function computes. */
  lemma PathChoice(p: FetchGamesParams, db: Database)
    ensures UsesFilterPath(p) <==>
      (p.status.Some? && p.status.value != "" && p.status.value != "all") || (p.team.Some? && p.team.value != "")
    ensures UsesFilterPath(p) ==> FetchGamesGrouped(p, db) == FetchGamesGroupedWithFilter(p, db)
  {
  }

  // ---------------------------------------------------------------------------
  // Infinite query

  /** `getNextPageParam`. */
  function GetNextPageParam(lastPage: GamesPage): (next: Option<nat>)
    ensures next.Some? <==> lastPage.hasMore
    ensures next.Some? ==> next.value == lastPage.nextOffset
  {
    if lastPage.hasMore then Some(lastPage.nextOffset) else None
  }

  /** The `queryFn` of `useGamesInfinite`: one page of `GamesPerPage` games at
      the page parameter. */
  function UseGamesInfinite(search: Option<string>, status: Option<string>, team: Option<string>,
                            db: Database): nat -> Result<GamesPage, string>
  {
    (pageParam: nat) => FetchGamesGrouped(FetchGamesParams(pageParam, GamesPerPage, search, status, team), db)
  }

  /** The games an infinite query shows after `pages` fetches starting at
      `pageParam`: each page's games, followed while `getNextPageParam` gives a
      next offset (`data.pages.flatMap((page) => page.games)`). */
  function InfiniteGames(queryFn: nat -> Result<GamesPage, string>, pageParam: nat, pages: nat): seq<GameGroup>
    decreases pages
  {
    if pages == 0 then []
    else
      match queryFn(pageParam)
      case Err(_) => []
      case Ok(page) =>
        page.games +
          match GetNextPageParam(page)
          case None => []
          case Some(next) => InfiniteGames(queryFn, next, pages - 1)
  }

  /** The offset reached after `pages` pages from `offset`. */
  function PagesEnd(offset: nat, pages: nat): (end: nat)
    ensures end >= offset
    ensures pages > 0 ==> end >= offset + GamesPerPage
    decreases pages
  {
    if pages == 0 then offset else PagesEnd(offset + GamesPerPage, pages - 1)
  }

  lemma {:induction false} PagesEndIsProduct(offset: nat, pages: nat)
    ensures PagesEnd(offset, pages) == offset + GamesPerPage * pages
    decreases pages
  {
    if pages > 0 {
      PagesEndIsProduct(offset + GamesPerPage, pages - 1);
    }
  }

  /** One fetch of an infinite query: the page's games, then the pages from
      its next offset if it has more. */
  lemma InfiniteGamesStep(queryFn: nat -> Result<GamesPage, string>, pageParam: nat, pages: nat, page: GamesPage)
    requires pages > 0 && queryFn(pageParam) == Ok(page)
    ensures InfiniteGames(queryFn, pageParam, pages)
         == page.games + (if page.hasMore then InfiniteGames(queryFn, page.nextOffset, pages - 1) else [])
  {
  }

  /** A page function that serves, at every offset up to `|rows|`, the games
      `view` makes of the rows `[offset, offset + GamesPerPage)`, with the row
      count as total. */
  ghost predicate ServesPages<T>(queryFn: nat -> Result<GamesPage, string>, rows: seq<T>,
                                 view: seq<T> -> seq<GameGroup>)
  {
    forall o: nat :: o <= |rows| ==>
      queryFn(o) == Ok(GamesPage(view(rows[o..Min(o + GamesPerPage, |rows|)]), |rows|,
                                 o + GamesPerPage < |rows|, o + GamesPerPage))
  }

  /** `view` works row range by row range: it maps a concatenation to the
      concatenation of its parts. */
  ghost predicate Concatenative<T(!new)>(view: seq<T> -> seq<GameGroup>)
  {
    && view([]) == []
    && forall a: seq<T>, b: seq<T> {:trigger view(a + b)} :: view(a + b) == view(a) + view(b)
  }

  /** Following `nextOffset` through such pages from a reached offset gives
      the view of the next stretch of rows. */
  lemma {:induction false} PagesFrom<T(!new)>(queryFn: nat -> Result<GamesPage, string>, rows: seq<T>,
                                        view: seq<T> -> seq<GameGroup>, offset: nat, pages: nat)
    requires ServesPages(queryFn, rows, view) && Concatenative(view)
    requires offset <= |rows|
    ensures InfiniteGames(queryFn, offset, pages) == view(rows[offset..Min(PagesEnd(offset, pages), |rows|)])
    decreases pages
  {
    if pages == 0 {
      assert rows[offset..offset] == [];
    } else {
      var mid := Min(offset + GamesPerPage, |rows|);
      var hi := Min(PagesEnd(offset, pages), |rows|);
      var page := GamesPage(view(rows[offset..mid]), |rows|, offset + GamesPerPage < |rows|, offset + GamesPerPage);
      assert queryFn(offset) == Ok(page);
      InfiniteGamesStep(queryFn, offset, pages, page);
      if offset + GamesPerPage < |rows| {
        assert PagesEnd(offset, pages) == PagesEnd(mid, pages - 1);
        PagesFrom(queryFn, rows, view, mid, pages - 1);
        assert rows[offset..hi] == rows[offset..mid] + rows[mid..hi];
        assert view(rows[offset..mid] + rows[mid..hi]) == view(rows[offset..mid]) + view(rows[mid..hi]);
      } else {
        assert hi == mid;
      }
    }
  }

  /** The games of the database path for a range of rows. */
  function ValidGames(rows: seq<GamesGroupedRow>): seq<GameGroup>
  {
    MapRows(ValidRows(rows))
  }

  /** Mapping the valid rows works range by range. */
  lemma ValidGamesConcatenative()
    ensures Concatenative(ValidGames)
  {
    forall a: seq<GamesGroupedRow>, b: seq<GamesGroupedRow>
      ensures ValidGames(a + b) == ValidGames(a) + ValidGames(b)
    {
      FilterConcat(a, b, IsValidGameRow);
      MapRowsConcat(ValidRows(a), ValidRows(b));
    }
  }

  /** A database that answers from one ordered sequence of rows: the full
      query gives all of them, a range query starting inside the sequence
      gives that range and the exact count. */
  ghost predicate ExactDb(db: Database, nameLike: Option<string>, rows: seq<GamesGroupedRow>)
  {
    && db(FullQuery(nameLike)) == QueryResponse(Some(rows), None, None)
    && forall from: nat, to: int :: from <= |rows| && from <= to + 1 ==>
         db(RangeQuery(nameLike, from, to)) == QueryResponse(Some(Slice(rows, from, to + 1)), None, Some(|rows|))
  }

  /** Against an exact database, a filter-path page is the slice of the
      filtered list at its offset. */
  lemma FilteredPage(p: FetchGamesParams, db: Database, rows: seq<GamesGroupedRow>)
    requires UsesFilterPath(p)
    requires ExactDb(db, NameLike(p.search), rows)
    ensures var m := MatchingGames(rows, p.status, p.team);
      FetchGamesGrouped(p, db)
        == Ok(GamesPage(Slice(m, p.offset, p.offset + p.limit), |m|, p.offset + p.limit < |m|, p.offset + p.limit))
  {
    assert RowsOf(db(FullQuery(NameLike(p.search)))) == rows;
  }

  /** The games of the filter path, taken as they are. */
  function AsIs(games: seq<GameGroup>): seq<GameGroup>
  {
    games
  }

  /** Against an exact database, the filter-path query function serves the
      filtered list page by page. */
  lemma FilteredServesPages(search: Option<string>, status: Option<string>, team: Option<string>,
                            db: Database, rows: seq<GamesGroupedRow>)
    requires StatusFilterActive(status) || Truthy(team)
    requires ExactDb(db, NameLike(search), rows)
    ensures ServesPages(UseGamesInfinite(search, status, team, db), MatchingGames(rows, status, team), AsIs)
  {
    var m := MatchingGames(rows, status, team);
    var queryFn := UseGamesInfinite(search, status, team, db);
    forall o: nat | o <= |m|
      ensures queryFn(o) == Ok(GamesPage(AsIs(m[o..Min(o + GamesPerPage, |m|)]), |m|, o + GamesPerPage < |m|, o + GamesPerPage))
    {
      FilteredPage(FetchGamesParams(o, GamesPerPage, search, status, team), db, rows);
      assert Slice(m, o, o + GamesPerPage) == m[o..Min(o + GamesPerPage, |m|)];
    }
  }

  /** Against an exact database, a database-path page maps the valid rows of
      the requested range, and its total is the number of rows. */
  lemma PagedPage(p: FetchGamesParams, db: Database, rows: seq<GamesGroupedRow>)
    requires !UsesFilterPath(p)
    requires ExactDb(db, NameLike(p.search), rows)
    requires p.offset <= |rows|
    ensures var chunk := rows[p.offset..Min(p.offset + p.limit, |rows|)];
      FetchGamesGrouped(p, db)
        == Ok(GamesPage(ValidGames(chunk), |rows|, p.offset + p.limit < |rows|, p.offset + p.limit))
    ensures |FetchGamesGrouped(p, db).value.games| <= p.limit
  {
    var resp := db(QueryFor(p));
    assert resp == QueryResponse(Some(Slice(rows, p.offset, p.offset + p.limit)), None, Some(|rows|));
  }

  /** Starting at offset 0 and following `nextOffset` while `hasMore` holds,
      the concatenated pages of the filter path are the whole filtered list:
      every matching row once, in source order, with no gap and no repeat. */
  lemma FilteredPagingIsComplete(search: Option<string>, status: Option<string>, team: Option<string>,
                                 db: Database, rows: seq<GamesGroupedRow>, pages: nat)
    requires StatusFilterActive(status) || Truthy(team)
    requires ExactDb(db, NameLike(search), rows)
    requires GamesPerPage * pages >= |MatchingGames(rows, status, team)|
    ensures InfiniteGames(UseGamesInfinite(search, status, team, db), 0, pages) == MatchingGames(rows, status, team)
  {
    var m := MatchingGames(rows, status, team);
    var queryFn := UseGamesInfinite(search, status, team, db);
    FilteredServesPages(search, status, team, db, rows);
    assert Concatenative(AsIs) by {
      assert AsIs([]) == [];
    }
    PagesFrom(queryFn, m, AsIs, 0, pages);
    PagesEndIsProduct(0, pages);
    assert m[0..|m|] == m;
  }

  /** Paging the database path from offset 0 yields every valid row of the
      view once, in order: both paths page through their list alike. */
  lemma PagedPagingIsComplete(search: Option<string>, status: Option<string>, team: Option<string>,
                              db: Database, rows: seq<GamesGroupedRow>, pages: nat)
    requires !(StatusFilterActive(status) || Truthy(team))
    requires ExactDb(db, NameLike(search), rows)
    requires GamesPerPage * pages >= |rows|
    ensures InfiniteGames(UseGamesInfinite(search, status, team, db), 0, pages) == ValidGames(rows)
  {
    var queryFn := UseGamesInfinite(search, status, team, db);
    PagedServesPages(search, status, team, db, rows);
    ValidGamesConcatenative();
    PagesFrom(queryFn, rows, ValidGames, 0, pages);
    PagesEndIsProduct(0, pages);
    assert rows[0..|rows|] == rows;
  }

  /** Against an exact database, the database-path query function serves
      the valid games of each row range. */
  lemma PagedServesPages(search: Option<string>, status: Option<string>, team: Option<string>,
                         db: Database, rows: seq<GamesGroupedRow>)
    requires !(StatusFilterActive(status) || Truthy(team))
    requires ExactDb(db, NameLike(search), rows)
    ensures ServesPages(UseGamesInfinite(search, status, team, db), rows, ValidGames)
  {
    var queryFn := UseGamesInfinite(search, status, team, db);
    forall o: nat | o <= |rows|
      ensures queryFn(o) == Ok(GamesPage(ValidGames(rows[o..Min(o + GamesPerPage, |rows|)]), |rows|,
                                         o + GamesPerPage < |rows|, o + GamesPerPage))
    {
      PagedPage(FetchGamesParams(o, GamesPerPage, search, status, team), db, rows);
    }
  }

  // ---------------------------------------------------------------------------
  // Teams

  /** A row of the `games` table with only the `team` column selected. */
  datatype TeamRow = TeamRow(team: string)

  datatype TeamsResponse = TeamsResponse(data: seq<TeamRow>, error: Option<string>)

  /** `useTeams`: the distinct team names of the approved games. The
      `localeCompare(..., "uk")` sort is not modelled: this is the list in
      first-occurrence (`Set` insertion) order. */
  function UniqueTeams(resp: TeamsResponse): (r: Result<seq<string>, string>)
    ensures resp.error.Some? ==> r == Err(resp.error.value)
    ensures resp.error.None? ==> r.Ok?
    ensures r.Ok? ==> NoDuplicates(r.value)
    ensures r.Ok? ==> forall t :: t in r.value <==> TeamRow(t) in resp.data
  {
    if resp.error.Some? then Err(resp.error.value)
    else
      var teams := seq(|resp.data|, i requires 0 <= i < |resp.data| => resp.data[i].team);
      assert forall t :: TeamRow(t) in resp.data ==> t in teams by {
        forall t | TeamRow(t) in resp.data ensures t in teams {
          var i :| 0 <= i < |resp.data| && resp.data[i] == TeamRow(t);
          assert teams[i] == t;
        }
      }
      Ok(Dedup(teams))
  }
}
