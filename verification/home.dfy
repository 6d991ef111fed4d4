/**
 The home page (app/page.js): one request for recent games, a search box that
 filters the loaded list by name without a new request, a "highlights"
 section with the first three matches and a "latest" section with the rest.
 */
module Home {
  import opened Wrappers
  import opened Text
  import opened Query
  import opened Rawg

  /** The fixed release window and ordering of the home page's request. */
  const NewsDates: string := "2023-01-01,2024-04-10"
  const NewsOrdering: string := "-released"
  const NewsPageSize: string := "10"

  const NewsErrorMessage: string := "Failed to load gaming news. Please try again later."

  /** How many matches the highlights section shows. */
  const FeaturedCount: nat := 3

  /** The request `fetchGamingNews` sends. */
  function NewsUrl(apiKey: string): (r: string)
    ensures r == BuildUrl(GamesEndpoint, NewsParams(apiKey))
  {
    var k := Param("key", apiKey);
    var d := Param("dates", NewsDates);
    var o := Param("ordering", NewsOrdering);
    var n := Param("page_size", NewsPageSize);
    BuildUrlSingle(GamesEndpoint, k);
    BuildUrlAppend(GamesEndpoint, [k], d);
    assert [k] + [d] == [k, d];
    BuildUrlAppend(GamesEndpoint, [k, d], o);
    assert [k, d] + [o] == [k, d, o];
    BuildUrlAppend(GamesEndpoint, [k, d, o], n);
    assert [k, d, o] + [n] == [k, d, o, n];
    var url := GamesEndpoint + "?" + "key" + "=" + apiKey;
    WithParam(WithParam(WithParam(url, "dates", NewsDates), "ordering", NewsOrdering), "page_size", NewsPageSize)
  }

  function NewsParams(apiKey: string): seq<Param> {
    [Param("key", apiKey), Param("dates", NewsDates), Param("ordering", NewsOrdering), Param("page_size", NewsPageSize)]
  }

  lemma DatesArePlain()
    ensures '&' !in NewsDates
  {
  }

  lemma OrderingIsPlain()
    ensures '&' !in NewsOrdering
  {
  }

  lemma PageSizeIsPlain()
    ensures '&' !in NewsPageSize
  {
  }

  lemma NewsParamsWellFormed(apiKey: string)
    requires '&' !in apiKey
    ensures WellFormed(NewsParams(apiKey))
  {
    var ps := NewsParams(apiKey);
    DatesArePlain();
    OrderingIsPlain();
    PageSizeIsPlain();
    assert '=' !in ps[0].name && '&' !in ps[0].name && '&' !in ps[0].value;
    assert '=' !in ps[1].name && '&' !in ps[1].name && '&' !in ps[1].value;
    assert '=' !in ps[2].name && '&' !in ps[2].name && '&' !in ps[2].value;
    assert '=' !in ps[3].name && '&' !in ps[3].name && '&' !in ps[3].value;
  }

  /** The request asks for the key, the fixed release window, newest first, ten per page. */
  lemma NewsRequestParams(apiKey: string)
    requires '&' !in apiKey
    ensures Params(NewsUrl(apiKey)) == NewsParams(apiKey)
  {
    NewsParamsWellFormed(apiKey);
    assert '?' !in GamesEndpoint;
    ParamsOfBuildUrl(GamesEndpoint, NewsParams(apiKey));
  }

  /** The search box keeps a game when its lowered name contains the lowered search term. */
  predicate Matches(g: Game, term: string) {
    Contains(Lower(g.name), Lower(term))
  }

  /** `filteredNews`: the loaded games whose names match the search term, in their loaded order. */
  function FilterNews(news: seq<Game>, term: string): (r: seq<Game>)
    ensures |r| <= |news|
    ensures forall g :: g in r <==> g in news && Matches(g, term)
    decreases |news|
  {
    if |news| == 0 then []
    else
      var rest := FilterNews(news[1..], term);
      assert forall g :: g in news <==> g == news[0] || g in news[1..];
      (if Matches(news[0], term) then [news[0]] else []) + rest
  }

  /** Filtering a concatenation filters each part, keeping their order. */
  lemma {:induction false} FilterNewsConcat(a: seq<Game>, b: seq<Game>, term: string)
    ensures FilterNews(a + b, term) == FilterNews(a, term) + FilterNews(b, term)
    decreases |a|
  {
    if |a| == 0 {
      assert a + b == b;
    } else {
      assert (a + b)[1..] == a[1..] + b;
      FilterNewsConcat(a[1..], b, term);
    }
  }

  /** A list whose every game matches comes through the filter unchanged. */
  lemma {:induction false} FilterNewsKeepsMatching(news: seq<Game>, term: string)
    requires forall k :: 0 <= k < |news| ==> Matches(news[k], term)
    ensures FilterNews(news, term) == news
    decreases |news|
  {
    if |news| > 0 {
      FilterNewsKeepsMatching(news[1..], term);
    }
  }

  /** An empty search box shows every loaded game, in order. */
  lemma EmptySearchShowsAll(news: seq<Game>)
    ensures FilterNews(news, "") == news
  {
    forall k | 0 <= k < |news| ensures Matches(news[k], "") {
      ContainsEmpty(Lower(news[k].name));
    }
    FilterNewsKeepsMatching(news, "");
  }

  /** Filtering twice with the same term is filtering once. */
  lemma FilterNewsIdempotent(news: seq<Game>, term: string)
    ensures FilterNews(FilterNews(news, term), term) == FilterNews(news, term)
  {
    var r := FilterNews(news, term);
    forall k | 0 <= k < |r| ensures Matches(r[k], term) {
      assert r[k] in r;
    }
    FilterNewsKeepsMatching(r, term);
  }

  /** Two terms that agree after lowering select the same games. */
  lemma {:induction false} FilterNewsSameLowered(news: seq<Game>, t: string, u: string)
    requires Lower(t) == Lower(u)
    ensures FilterNews(news, t) == FilterNews(news, u)
    decreases |news|
  {
    if |news| > 0 {
      FilterNewsSameLowered(news[1..], t, u);
    }
  }

  /** The search ignores the case of the term: upper-case, lower-case or as typed give the same list. */
  lemma SearchIgnoresCase(news: seq<Game>, term: string)
    ensures FilterNews(news, Upper(term)) == FilterNews(news, term)
    ensures FilterNews(news, Lower(term)) == FilterNews(news, term)
  {
    LowerOfUpper(term);
    FilterNewsSameLowered(news, Upper(term), term);
    LowerIdempotent(term);
    FilterNewsSameLowered(news, Lower(term), term);
  }

  /** Typing more characters only narrows the list: the longer term's matches are the shorter term's matches filtered again. */
  lemma {:induction false} NarrowingSearch(news: seq<Game>, t: string, u: string)
    ensures FilterNews(FilterNews(news, t), t + u) == FilterNews(news, t + u)
    decreases |news|
  {
    if |news| > 0 {
      var g := news[0];
      LowerConcat(t, u);
      if Matches(g, t + u) {
        ContainsFront(Lower(g.name), Lower(t), Lower(u));
      }
      NarrowingSearch(news[1..], t, u);
      FilterNewsConcat(if Matches(g, t) then [g] else [], FilterNews(news[1..], t), t + u);
    }
  }

  /** `filteredNews.slice(0, 3)`: the highlights. */
  function Featured(filtered: seq<Game>): (r: seq<Game>)
    ensures |r| == if |filtered| < FeaturedCount then |filtered| else FeaturedCount
    ensures r == filtered[..|r|]
  {
    if |filtered| <= FeaturedCount then filtered else filtered[..FeaturedCount]
  }

  /** `filteredNews.slice(3)`: the rest, empty when there are three matches or fewer. */
  function Latest(filtered: seq<Game>): (r: seq<Game>)
    ensures |r| == if |filtered| < FeaturedCount then 0 else |filtered| - FeaturedCount
    ensures r == filtered[|filtered| - |r|..]
  {
    if |filtered| <= FeaturedCount then [] else filtered[FeaturedCount..]
  }

  /** The two sections together show every match exactly once, highlights first; the rest is shown only after three highlights. */
  lemma FeaturedLatestPartition(filtered: seq<Game>)
    ensures Featured(filtered) + Latest(filtered) == filtered
    ensures Latest(filtered) != [] ==> |Featured(filtered)| == FeaturedCount
  {
  }

  datatype HomeState = HomeState(news: seq<Game>, loading: bool, error: Option<string>, searchTerm: string)

  const Initial: HomeState := HomeState([], true, None, "")

  /** How a request ends: the listing's games, or a failure (a non-ok status, a network error, unreadable JSON). */
  datatype Outcome = Loaded(results: seq<Game>) | Failed

  /** The search box's `onChange`. */
  function TypeSearch(st: HomeState, term: string): (r: HomeState)
    ensures r.searchTerm == term && r.news == st.news
    ensures r.loading == st.loading && r.error == st.error
  {
    st.(searchTerm := term)
  }

  /** `fetchGamingNews` starts: the spinner comes on. */
  function BeginFetch(st: HomeState): (r: HomeState)
    ensures r.loading && r.news == st.news && r.error == st.error && r.searchTerm == st.searchTerm
  {
    st.(loading := true)
  }

  /** `fetchGamingNews` ends, as written: a success replaces the games but leaves any earlier error in place. */
  function FinishFetch(st: HomeState, outcome: Outcome): (r: HomeState)
    ensures !r.loading && r.searchTerm == st.searchTerm
    ensures outcome.Loaded? ==> r.news == outcome.results && r.error == st.error
    ensures outcome.Failed? ==> r.news == st.news && r.error == Some(NewsErrorMessage)
  {
    match outcome
    case Loaded(results) => st.(news := results, loading := false)
    case Failed => st.(error := Some(NewsErrorMessage), loading := false)
  }

  /** The intended end of a request: a success also clears the error of an earlier failure. */
  function FinishFetchClearingError(st: HomeState, outcome: Outcome): (r: HomeState)
    ensures !r.loading && r.searchTerm == st.searchTerm
    ensures outcome.Loaded? ==> r.news == outcome.results && r.error.None?
    ensures outcome.Failed? ==> r.news == st.news && r.error == Some(NewsErrorMessage)
  {
    match outcome
    case Loaded(results) => st.(news := results, loading := false, error := None)
    case Failed => st.(error := Some(NewsErrorMessage), loading := false)
  }

  /** What one section shows. */
  datatype Section = Spinner | ErrorBanner(message: string) | NoMatches | Cards(items: seq<Game>)

  /** "Today's Gaming Highlights": spinner, else the error, else the first three matches (possibly none). */
  function FeaturedView(st: HomeState): (r: Section)
    ensures r.Spinner? <==> st.loading
    ensures r.ErrorBanner? <==> !st.loading && st.error.Some?
    ensures r.Cards? <==> !st.loading && st.error.None?
    ensures r.Cards? ==> r.items == Featured(FilterNews(st.news, st.searchTerm))
  {
    if st.loading then Spinner
    else if st.error.Some? then ErrorBanner(st.error.value)
    else Cards(Featured(FilterNews(st.news, st.searchTerm)))
  }

  /** "Latest Updates": spinner, else the error, else a notice when nothing matches, else the matches after the third. */
  function LatestView(st: HomeState): (r: Section)
    ensures r.Spinner? <==> st.loading
    ensures r.ErrorBanner? <==> !st.loading && st.error.Some?
    ensures r.NoMatches? <==> !st.loading && st.error.None? && FilterNews(st.news, st.searchTerm) == []
    ensures r.Cards? ==> r.items == Latest(FilterNews(st.news, st.searchTerm))
  {
    var filtered := FilterNews(st.news, st.searchTerm);
    if st.loading then Spinner
    else if st.error.Some? then ErrorBanner(st.error.value)
    else if |filtered| == 0 then NoMatches
    else Cards(Latest(filtered))
  }

  /** Once loaded without error, the cards of the two sections are exactly the matching games, in order. */
  lemma ShownCardsAreTheMatches(st: HomeState)
    requires !st.loading && st.error.None?
    ensures FeaturedView(st).Cards?
    ensures LatestView(st).Cards? || LatestView(st).NoMatches?
    ensures LatestView(st).Cards? ==>
      FeaturedView(st).items + LatestView(st).items == FilterNews(st.news, st.searchTerm)
    ensures LatestView(st).NoMatches? ==> FeaturedView(st).items == []
  {
    FeaturedLatestPartition(FilterNews(st.news, st.searchTerm));
  }

  /**
   As written, once a request has failed, a later successful Refresh loads the
   games but both sections keep showing the old error.
   */
  lemma ErrorOutlivesRefresh(st: HomeState, results: seq<Game>)
    ensures var failed := FinishFetch(BeginFetch(st), Failed);
      var refreshed := FinishFetch(BeginFetch(failed), Loaded(results));
      && refreshed.news == results
      && FeaturedView(refreshed) == ErrorBanner(NewsErrorMessage)
      && LatestView(refreshed) == ErrorBanner(NewsErrorMessage)
  {
  }

  /** With the error cleared on success, a successful Refresh shows the loaded games whatever happened before. */
  lemma RefreshShowsLoadedGames(st: HomeState, results: seq<Game>)
    ensures var refreshed := FinishFetchClearingError(BeginFetch(st), Loaded(results));
      && FeaturedView(refreshed) == Cards(Featured(FilterNews(results, st.searchTerm)))
      && (LatestView(refreshed).NoMatches? || LatestView(refreshed) == Cards(Latest(FilterNews(results, st.searchTerm))))
  {
  }
}
