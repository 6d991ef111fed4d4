/**
 The franchise explorer (app/collections/page.js): a fixed list of popular
 franchises, a search that turns the first matching game into a single
 franchise entry, and the games of a chosen franchise, read from the
 game-series endpoint with a fallback to a name search.
 */
module Collections {
  import opened Wrappers
  import opened Text
  import opened Query
  import opened Rawg

  datatype Franchise = Franchise(id: int, name: string, slug: string, image: Option<string>)

  /** The franchises shown before any search, and again after a blank one. */
  const PopularFranchises: seq<Franchise> := [
    Franchise(1, "Call of Duty", "call-of-duty", Some("https://media.rawg.io/media/games/587/587588c64afbeff73b3a0b1cd2388aa6.jpg")),
    Franchise(2, "Assassin's Creed", "assassins-creed", Some("https://media.rawg.io/media/games/7cf/7cfc9220b401b7a300e409e539c9afd5.jpg")),
    Franchise(3, "Grand Theft Auto", "grand-theft-auto", Some("https://media.rawg.io/media/games/84d/84da2ac3fdfc6507807a1808595afb12.jpg")),
    Franchise(4, "The Legend of Zelda", "the-legend-of-zelda", Some("https://media.rawg.io/media/games/3c1/3c139f67a73f0bf5ce0b8b2ee408db9b.jpg")),
    Franchise(5, "Final Fantasy", "final-fantasy", Some("https://media.rawg.io/media/games/d1a/d1a2e99ade53494c6330a0ed945fe823.jpg")),
    Franchise(6, "Resident Evil", "resident-evil", Some("https://media.rawg.io/media/games/7f3/7f3a378e914615d7dfa8f6d6d8a5310e.jpg")),
    Franchise(7, "Super Mario", "super-mario", Some("https://media.rawg.io/media/games/367/367463bf43c8c5a96584e2d694826d8e.jpg")),
    Franchise(8, "Metal Gear", "metal-gear", Some("https://media.rawg.io/media/games/2b3/2b3f0b8d3f1b6a9f3e3a5f0e0b0e0e0e.jpg")),
    Franchise(9, "Halo", "halo", Some("https://media.rawg.io/media/games/120/1201a40e4364557b124392ee50317b99.jpg")),
    Franchise(10, "God of War", "god-of-war", Some("https://media.rawg.io/media/games/4be/4be6a6ad0364751a96229c56bf69be59.jpg"))
  ]

  /** The popular list has ten entries with the ids 1 to 10 in order, and no two share a slug. */
  lemma PopularFranchisesShape()
    ensures |PopularFranchises| == 10
    ensures forall k :: 0 <= k < 10 ==> PopularFranchises[k].id == k + 1
    ensures forall i, j :: 0 <= i < j < 10 ==> PopularFranchises[i].slug != PopularFranchises[j].slug
  {
    var p := PopularFranchises;
    assert forall i, j :: 0 <= i < j < 10 ==> |p[i].slug| != |p[j].slug| || p[i].slug[0] != p[j].slug[0] || p[i].slug[1] != p[j].slug[1];
  }

  const SearchErrorMessage: string := "Failed to perform search. Please try again later."
  const SeriesErrorMessage: string := "Failed to load series games. Please try again later."

  /** The suffix of a franchise name made up from the search term. */
  const GamesSuffix: string := " Games"

  datatype CollectionsState = CollectionsState(
    gameSeries: seq<Franchise>,
    loading: bool,
    error: Option<string>,
    searchTerm: string,
    selectedSeries: Option<Franchise>,
    seriesGames: seq<Game>,
    seriesLoading: bool)

  /** The state of the first render, before the mount effect. */
  const Initial: CollectionsState := CollectionsState([], true, None, "", None, [], false)

  /** The mount effect: show the popular franchises. */
  function Mount(st: CollectionsState): (r: CollectionsState)
    ensures r.gameSeries == PopularFranchises && !r.loading
    ensures r.error == st.error && r.searchTerm == st.searchTerm && r.selectedSeries == st.selectedSeries
  {
    st.(gameSeries := PopularFranchises, loading := false)
  }

  /** The search box's `onChange`. */
  function TypeSearch(st: CollectionsState, term: string): (r: CollectionsState)
    ensures r.searchTerm == term && r.gameSeries == st.gameSeries && r.error == st.error
  {
    st.(searchTerm := term)
  }

  /**
   The name of the franchise made from the first search result: the game's own
   name when it contains the typed term (case-sensitively), otherwise the term
   followed by " Games".
   */
  function FranchiseName(first: Game, term: string): (r: string)
    ensures r == first.name || r == term + GamesSuffix
  {
    if Contains(first.name, term) then first.name else term + GamesSuffix
  }

  /** The made-up name always shows the term, and it is the game's own name exactly when that contains the term. */
  lemma FranchiseNameShowsTerm(first: Game, term: string)
    ensures Contains(FranchiseName(first, term), term)
    ensures FranchiseName(first, term) == first.name <==> Contains(first.name, term)
  {
    if !Contains(first.name, term) {
      ContainsInfix("", term, GamesSuffix);
      assert "" + term + GamesSuffix == term + GamesSuffix;
    }
  }

  /** The franchise entry built from the first result: its id, slug and image, and the chosen name. */
  function FranchiseOf(first: Game, term: string): (r: Franchise)
    ensures r.id == first.id && r.slug == first.slug && r.image == first.backgroundImage
    ensures r.name == FranchiseName(first, term)
  {
    Franchise(first.id, FranchiseName(first, term), first.slug, first.backgroundImage)
  }

  /** The search request of `handleSearch`, and of the series fallback with `pageSize` "40". */
  function SearchUrl(term: string, pageSize: string, apiKey: string, encode: string -> string): (r: string)
    ensures r == BuildUrl(GamesEndpoint, SearchParams(term, pageSize, apiKey, encode))
  {
    var k := Param("key", apiKey);
    var s := Param("search", encode(term));
    var n := Param("page_size", pageSize);
    BuildUrlSingle(GamesEndpoint, k);
    BuildUrlAppend(GamesEndpoint, [k], s);
    assert [k] + [s] == [k, s];
    BuildUrlAppend(GamesEndpoint, [k, s], n);
    assert [k, s] + [n] == [k, s, n];
    WithParam(WithParam(GamesEndpoint + "?" + "key" + "=" + apiKey, "search", encode(term)), "page_size", pageSize)
  }

  function SearchParams(term: string, pageSize: string, apiKey: string, encode: string -> string): seq<Param> {
    [Param("key", apiKey), Param("search", encode(term)), Param("page_size", pageSize)]
  }

  /** A search request carries the key, the encoded term and the page size, and nothing else. */
  lemma SearchRequestParams(term: string, pageSize: string, apiKey: string, encode: string -> string)
    requires '&' !in apiKey && '&' !in encode(term) && '&' !in pageSize
    ensures Params(SearchUrl(term, pageSize, apiKey, encode)) == SearchParams(term, pageSize, apiKey, encode)
  {
    var ps := SearchParams(term, pageSize, apiKey, encode);
    forall k | 0 <= k < |ps| ensures '=' !in ps[k].name && '&' !in ps[k].name && '&' !in ps[k].value {
    }
    assert '?' !in GamesEndpoint;
    ParamsOfBuildUrl(GamesEndpoint, ps);
  }

  /** The request `handleSearch` sends: none for a blank term, else a 20-result search for the term as typed. */
  function SearchRequest(st: CollectionsState, apiKey: string, encode: string -> string): (r: Option<string>)
    ensures r.None? <==> IsBlank(st.searchTerm)
    ensures r.Some? ==> r.value == SearchUrl(st.searchTerm, "20", apiKey, encode)
  {
    TrimEmptyIffBlank(st.searchTerm);
    if Trim(st.searchTerm) == [] then None else Some(SearchUrl(st.searchTerm, "20", apiKey, encode))
  }

  /**
   `handleSearch` once its request (if any) has settled. `reply` is the listing,
   or `None` when the request failed before a listing could be read.
   */
  function HandleSearch(st: CollectionsState, reply: Option<Response>): (r: CollectionsState)
    ensures r.searchTerm == st.searchTerm && r.selectedSeries == st.selectedSeries
    ensures r.seriesGames == st.seriesGames && r.seriesLoading == st.seriesLoading
    ensures IsBlank(st.searchTerm) ==> r == st.(gameSeries := PopularFranchises)
    ensures !IsBlank(st.searchTerm) ==> !r.loading
    ensures !IsBlank(st.searchTerm) && reply.Some? && reply.value.ok ==>
      r.error == st.error &&
      r.gameSeries == (if |reply.value.results| == 0 then [] else [FranchiseOf(reply.value.results[0], st.searchTerm)])
    ensures !IsBlank(st.searchTerm) && !(reply.Some? && reply.value.ok) ==>
      r.error == Some(SearchErrorMessage) && r.gameSeries == st.gameSeries
  {
    TrimEmptyIffBlank(st.searchTerm);
    if Trim(st.searchTerm) == [] then st.(gameSeries := PopularFranchises)
    else if reply.None? || !reply.value.ok then st.(error := Some(SearchErrorMessage), loading := false)
    else
      var results := reply.value.results;
      if |results| > 0 then st.(gameSeries := [FranchiseOf(results[0], st.searchTerm)], loading := false)
      else st.(gameSeries := [], loading := false)
  }

  /** A successful search shows at most one franchise, and one exactly when the search found a game. */
  lemma SearchShowsAtMostOne(st: CollectionsState, resp: Response)
    requires !IsBlank(st.searchTerm) && resp.ok
    ensures var r := HandleSearch(st, Some(resp));
      && |r.gameSeries| <= 1
      && (|r.gameSeries| == 1 <==> |resp.results| > 0)
      && (|r.gameSeries| == 1 ==> Contains(r.gameSeries[0].name, st.searchTerm))
  {
    if |resp.results| > 0 {
      FranchiseNameShowsTerm(resp.results[0], st.searchTerm);
    }
  }

  /** The franchise page's own request: the game-series listing of its slug. */
  /** The path of a franchise's series listing. */
  function SeriesEndpoint(slug: string): string {
    GamesEndpoint + "/" + slug + "/game-series"
  }

  function SeriesParams(apiKey: string): seq<Param> {
    [Param("key", apiKey), Param("page_size", "40")]
  }

  /** The series listing of `fetchGamesInSeries`: the franchise's path, then the key and forty per page. */
  function SeriesUrl(slug: string, apiKey: string): (r: string)
    ensures r == BuildUrl(SeriesEndpoint(slug), SeriesParams(apiKey))
  {
    var k := Param("key", apiKey);
    var n := Param("page_size", "40");
    BuildUrlSingle(SeriesEndpoint(slug), k);
    BuildUrlAppend(SeriesEndpoint(slug), [k], n);
    assert [k] + [n] == [k, n];
    WithParam(SeriesEndpoint(slug) + "?" + "key" + "=" + apiKey, "page_size", "40")
  }

  /** A series request for a slug without `?` reads back as the key and the page size, and nothing else. */
  lemma SeriesRequestParams(slug: string, apiKey: string)
    requires '?' !in slug && '&' !in apiKey
    ensures Params(SeriesUrl(slug, apiKey)) == SeriesParams(apiKey)
  {
    var ps := SeriesParams(apiKey);
    forall k | 0 <= k < |ps| ensures '=' !in ps[k].name && '&' !in ps[k].name && '&' !in ps[k].value {
    }
    assert '?' !in GamesEndpoint;
    assert '?' !in "/game-series";
    assert '?' !in SeriesEndpoint(slug);
    ParamsOfBuildUrl(SeriesEndpoint(slug), ps);
  }

  /** Whether the fallback name search is sent: only when the series listing answered with a non-ok status. */
  predicate NeedsFallback(seriesReply: Option<Response>) {
    seriesReply.Some? && !seriesReply.value.ok
  }

  /** The requests `fetchGamesInSeries` sends, in order. */
  function SeriesRequests(series: Franchise, seriesReply: Option<Response>, apiKey: string, encode: string -> string): (r: seq<string>)
    ensures 1 <= |r| <= 2 && r[0] == SeriesUrl(series.slug, apiKey)
    ensures |r| == 2 <==> NeedsFallback(seriesReply)
    ensures |r| == 2 ==> r[1] == SearchUrl(series.name, "40", apiKey, encode)
  {
    [SeriesUrl(series.slug, apiKey)] + (if NeedsFallback(seriesReply) then [SearchUrl(series.name, "40", apiKey, encode)] else [])
  }

  /**
   `handleSeriesSelect` and `fetchGamesInSeries` once settled: the franchise is
   selected; the series listing's games are shown when it answers ok; after a
   non-ok answer the name search's games are shown when that one answers ok;
   anything else records the series error, which the list view shares.
   */
  function SelectSeries(st: CollectionsState, series: Franchise, seriesReply: Option<Response>, searchReply: Option<Response>): (r: CollectionsState)
    ensures r.selectedSeries == Some(series) && !r.seriesLoading
    ensures r.gameSeries == st.gameSeries && r.searchTerm == st.searchTerm && r.loading == st.loading
    ensures seriesReply.Some? && seriesReply.value.ok ==>
      r.seriesGames == seriesReply.value.results && r.error == st.error
    ensures NeedsFallback(seriesReply) && searchReply.Some? && searchReply.value.ok ==>
      r.seriesGames == searchReply.value.results && r.error == st.error
    ensures seriesReply.None? || (NeedsFallback(seriesReply) && !(searchReply.Some? && searchReply.value.ok)) ==>
      r.seriesGames == st.seriesGames && r.error == Some(SeriesErrorMessage)
  {
    var st := st.(selectedSeries := Some(series));
    if seriesReply.Some? && seriesReply.value.ok then
      st.(seriesGames := seriesReply.value.results, seriesLoading := false)
    else if seriesReply.Some? && searchReply.Some? && searchReply.value.ok then
      st.(seriesGames := searchReply.value.results, seriesLoading := false)
    else
      st.(error := Some(SeriesErrorMessage), seriesLoading := false)
  }

  /** The fallback answer is never looked at when the series listing answered ok or the request failed outright. */
  lemma FallbackOnlyWhenNeeded(st: CollectionsState, series: Franchise, seriesReply: Option<Response>, a: Option<Response>, b: Option<Response>)
    requires !NeedsFallback(seriesReply)
    ensures SelectSeries(st, series, seriesReply, a) == SelectSeries(st, series, seriesReply, b)
  {
  }

  /** "Back to Franchises". */
  function Deselect(st: CollectionsState): (r: CollectionsState)
    ensures r.selectedSeries.None? && r == st.(selectedSeries := None)
  {
    st.(selectedSeries := None)
  }

  /** What the franchise list shows. */
  datatype ListView = Searching | ListError(message: string) | NoFranchises(heading: string) | FranchiseCards(heading: string, items: seq<Franchise>)

  /** What the page of one franchise shows below its "N games found" header. */
  datatype SeriesView = LoadingGames | SeriesError(message: string) | NoGames | GameCards(items: seq<Game>)

  /** The list's heading: "Search Results" while the box holds any text, even blanks. */
  function ListHeading(searchTerm: string): (r: string)
    ensures r == "Search Results" <==> searchTerm != ""
  {
    if searchTerm != "" then "Search Results" else "Popular Game Franchises"
  }

  function ShowList(st: CollectionsState): (r: ListView)
    ensures r.Searching? <==> st.loading
    ensures r.ListError? <==> !st.loading && st.error.Some?
    ensures r.NoFranchises? <==> !st.loading && st.error.None? && st.gameSeries == []
    ensures r.FranchiseCards? ==> r.items == st.gameSeries && r.heading == ListHeading(st.searchTerm)
  {
    if st.loading then Searching
    else if st.error.Some? then ListError(st.error.value)
    else if |st.gameSeries| == 0 then NoFranchises(ListHeading(st.searchTerm))
    else FranchiseCards(ListHeading(st.searchTerm), st.gameSeries)
  }

  function ShowSeries(st: CollectionsState): (r: SeriesView)
    ensures r.LoadingGames? <==> st.seriesLoading
    ensures r.SeriesError? <==> !st.seriesLoading && st.error.Some?
    ensures r.NoGames? <==> !st.seriesLoading && st.error.None? && st.seriesGames == []
    ensures r.GameCards? ==> r.items == st.seriesGames
  {
    if st.seriesLoading then LoadingGames
    else if st.error.Some? then SeriesError(st.error.value)
    else if |st.seriesGames| == 0 then NoGames
    else GameCards(st.seriesGames)
  }

  /**
   The error is shared by both views and nothing clears it: after a failed
   series load, going back shows the series error instead of the franchises.
   */
  lemma SeriesErrorReachesList(st: CollectionsState, series: Franchise)
    requires !st.loading
    ensures ShowList(Deselect(SelectSeries(st, series, None, None))) == ListError(SeriesErrorMessage)
  {
  }

  /** `slice(0, 3)` of a game's platforms or genres: the tags shown on its card. */
  function VisibleTags(tags: seq<Tag>): (r: seq<Tag>)
    ensures |r| == if |tags| < 3 then |tags| else 3
    ensures r == tags[..|r|]
  {
    if |tags| <= 3 then tags else tags[..3]
  }

  /** The `+N more` badge after the shown platforms: present only beyond three platforms. */
  function MoreBadge(platforms: seq<Tag>): (r: Option<nat>)
    ensures r.Some? <==> |platforms| > 3
    ensures r.Some? ==> r.value >= 1
  {
    if |platforms| > 3 then Some(|platforms| - 3) else None
  }

  /** The shown platforms and the badge's count account for every platform exactly once. */
  lemma BadgeCountsTheRest(platforms: seq<Tag>)
    ensures |VisibleTags(platforms)| + MoreBadge(platforms).GetOr(0) == |platforms|
    ensures MoreBadge(platforms).Some? ==> VisibleTags(platforms) + platforms[3..] == platforms
  {
    if |platforms| > 3 {
      assert platforms[..3] + platforms[3..] == platforms;
    }
  }
}
