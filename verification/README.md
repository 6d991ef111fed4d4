# GamePulse pages and news route, modelled in Dafny

GamePulse is a client-rendered Next.js site that shows game data from the
RAWG game database and gaming articles from NewsAPI. This project models the
logic of five of its files as pure Dafny functions over immutable records,
and proves what they promise:

- **Best of the year** (`app/best-of-year/page.js`): the year picker, the three
  listings that are merged, de-duplicated by id in first-seen order, sorted by
  rating with JavaScript's stable sort and cut to 24, the per-year store and its
  error message, and the Metacritic badge colour. Module `BestOfYear`.
- **Game library** (`app/games/page.js`): the request URL built from the key,
  the page and the active filters; the page state and one transition per
  handler (search, clear, chip removal, filter choice, load more, listing
  arrival); the games grid. Module `GameLibrary`.
- **Home** (`app/page.js`): the fixed request, the case-insensitive name filter,
  the split into three highlights and the rest, and the loading, error and
  empty views. Module `Home`.
- **Franchise explorer** (`app/collections/page.js`): the ten popular
  franchises, the search that makes one franchise from the first result, the
  series listing with its fallback name search, the views, and the `+N more`
  platform badge. Module `Collections`.
- **News route** (`app/api/gaming-news/route.js`): the NewsAPI request with its
  twelve sites, the reshaping of articles into news records, and the error
  responses. Module `GamingNewsRoute`.

Shared modules: `Text` (ASCII `toLowerCase`, `includes`, `trim`, decimal
rendering of numbers, `join` and `split`), `Query` (query strings, with
`Params` as the reader that is the partner of `BuildUrl`), `Rawg` (the API's
records) and `Wrappers` (`Option`).

Modelling conventions:

- A response is an input value. Network I/O, clocks and `encodeURIComponent`
  are parameters: `encode` stands for `encodeURIComponent`, and `currentYear`
  and `apiKey` are arguments.
- React state is a record, and each handler or effect step is a function from
  the old record to the new one.
- Ratings are integers in hundredths, so 4.37 is 437.
- A JSON value that may be `null` or absent is an `Option`.
- A selection id of `0` counts as unset, because the source tests selections
  for truthiness.

The year ranking compares games by `rating` alone
(`app/best-of-year/page.js:91`). There is no second key, so games with equal
ratings stay in first-seen order, because the sort is stable.

## Model

| member | source | states |
|---|---|---|
| `BestOfYear.Years` | app/best-of-year/page.js:24-28 | The years run from the current year down to 1980, strictly decreasing. A year is listed exactly when it lies in that range. Before 1980 there are none. |
| `BestOfYear.Dedupe` | app/best-of-year/page.js:82-87 | The result has no two games with the same id. It has exactly the ids of the input and is no longer than the input. |
| `BestOfYear.DedupeFirstOccurrences` | app/best-of-year/page.js:82-87 | Each kept game is the first game of the input with its id. Kept games appear in the order their ids were first seen. |
| `BestOfYear.DedupeOfDistinct` | app/best-of-year/page.js:82-87 | A list with distinct ids comes through de-duplication unchanged. |
| `BestOfYear.DedupeIdempotent` | app/best-of-year/page.js:82-87 | De-duplicating twice is the same as de-duplicating once. |
| `BestOfYear.InsertSorted` | app/best-of-year/page.js:91 | Inserting a game into a list sorted by descending rating keeps it sorted. |
| `BestOfYear.SortByRating` | app/best-of-year/page.js:90-91 | The result is sorted by descending rating and is a permutation of the input. |
| `BestOfYear.SortStable` | app/best-of-year/page.js:91 | For every rating, the games with that rating keep their input order, as `Array.prototype.sort` guarantees. |
| `BestOfYear.SortedStableUnique` | app/best-of-year/page.js:91 | Two descending orders with the same games in each rating class, in the same order, are equal. So the comparator fixes the result. |
| `BestOfYear.SortIsTheStableSort` | app/best-of-year/page.js:91 | Any stable descending sort of the list equals the model's sort. |
| `BestOfYear.SortDistinct` | app/best-of-year/page.js:91 | Sorting keeps ids distinct. |
| `BestOfYear.Rank` | app/best-of-year/page.js:90-92 | The result has min(n, 24) games, sorted by descending rating, all taken from the input. Distinct ids stay distinct. |
| `BestOfYear.RankIsPrefixOfStableSort` | app/best-of-year/page.js:90-92 | The ranked list is the first min(n, 24) games of any stable descending sort. |
| `BestOfYear.RankIdempotent` | app/best-of-year/page.js:90-92 | Ranking a ranked list changes nothing. |
| `BestOfYear.BestOfYearList` | app/best-of-year/page.js:77-92 | The stored list has distinct ids and is sorted. It holds min(distinct ids, 24) games. Each game is the first occurrence of its id in the concatenated listings. |
| `BestOfYear.BestOfYearKeepsEveryId` | app/best-of-year/page.js:77-92 | When at most 24 distinct games arrive, every id from any of the three listings is stored. |
| `BestOfYear.FetchGamesForYear` | app/best-of-year/page.js:36-102 | Loading ends, and other years' entries are untouched. If all three listings are ok, the year holds their ranked merge and the error is unchanged. Otherwise nothing is stored and the error names the year. |
| `BestOfYear.LoadErrorNamesYear` | app/best-of-year/page.js:100 | The error message contains the year in decimal. |
| `BestOfYear.LoadErrorMessageInjective` | app/best-of-year/page.js:100 | Different years give different error messages. |
| `BestOfYear.MetacriticColor` | app/best-of-year/page.js:230-235 | The badge is green exactly for scores of 90 and up, and yellow exactly for 75 to 89. It is red for lower scores and for a missing score. |
| `BestOfYear.MetacriticColorMonotonic` | app/best-of-year/page.js:230-235 | A higher score never gets a worse badge. |
| `GameLibrary.BuildApiUrl` | app/games/page.js:38-58 | The URL starts with the endpoint, the key, `page_size=40` and the current page. With no query and no selection it is exactly that. |
| `GameLibrary.BuildApiUrlIsBuildUrl` | app/games/page.js:38-58 | The concatenated URL is the endpoint followed by the key, `page_size=40`, the page and then the active filters, in the source's order. |
| `GameLibrary.BuildApiUrlParams` | app/games/page.js:38-58 | Reading the URL's query back gives exactly those parameters. |
| `GameLibrary.BuildApiUrlLookups` | app/games/page.js:38-58 | The URL always carries the key, `page_size=40` and the current page. `search` is present exactly when the query is non-empty. Each selection parameter is present exactly when that selection is set. |
| `GameLibrary.TypeSearchTerm` | app/games/page.js:171-181 | Typing changes only the typed term. |
| `GameLibrary.HandleSearch` | app/games/page.js:117-122 | Submitting makes the typed term the query, returns to page 1 with no games, and leaves the selections alone. |
| `GameLibrary.HandleSearchRequest` | app/games/page.js:117-122 | After submitting, the request asks for page 1 with the typed term and the current selections. |
| `GameLibrary.ClearFilters` | app/games/page.js:124-132 | Clearing unsets all three selections and both search strings, and returns to page 1 with no games. |
| `GameLibrary.ClearFiltersRequest` | app/games/page.js:124-132 | After clearing, the request carries no filter parameter and asks for page 1. |
| `GameLibrary.ClearFiltersAbsorbs` | app/games/page.js:117-132 | Clearing after a search or a chip removal equals clearing alone, and clearing is idempotent. |
| `GameLibrary.ClearSearch` | app/games/page.js:245-258 | The search chip's button empties both search strings, returns to page 1 with no games, and keeps the selections. |
| `GameLibrary.LoadMore` | app/games/page.js:134-138 | The page advances by one exactly when not loading and more pages exist. Otherwise nothing changes. |
| `GameLibrary.SetFilter` | app/games/page.js:285-344 | As written, a filter's radio button (and likewise a chip's remove button, lines 216-238) changes only that selection. The page and the shown games are kept. |
| `GameLibrary.ApplyFetch` | app/games/page.js:64-74 | An ok listing replaces the games on page 1 and is appended after them on later pages. `hasMore` then follows `next`. A failed listing keeps the games and records "Failed to fetch games". Loading ends. |
| `GameLibrary.BeginFetch` | app/games/page.js:63 | Starting a request turns loading on and changes nothing else. |
| `GameLibrary.StoreListing` | app/games/page.js:70-74 | Storing a listing replaces the games on page 1 and appends on later pages. `hasMore` follows `next`. Loading and the error are untouched. |
| `GameLibrary.FinishLoading` | app/games/page.js:107 | The end of the `try` ends loading and changes nothing else. |
| `GameLibrary.CatchError` | app/games/page.js:108-110 | The `catch` records the thrown message and ends loading. The games already stored stay. |
| `GameLibrary.ArriveWithOptions` | app/games/page.js:62-111 | A non-ok listing leaves the games and records "Failed to fetch games". An ok listing is stored, and then the error is unchanged unless an option list threw, in which case it is that list's message. Loading ends. |
| `GameLibrary.ApplyFetchIsListsLoaded` | app/games/page.js:62-111 | `ApplyFetch` is the arrival in which the option lists do not throw. |
| `GameLibrary.OptionListFailureHidesGames` | app/games/page.js:70-110 | When an option list throws after an ok listing, the games hold the listing but the grid shows the error message. |
| `GameLibrary.NoLoadMoreWhileOptionsLoad` | app/games/page.js:63-107 | Between storing the listing and the end of the option lists, loading is still on, so `loadMore` (lines 134-138) changes nothing. |
| `GameLibrary.Step` | app/games/page.js:117-138 | Each event keeps the page at or above 1, and the page only stays, resets to 1 or grows by one. |
| `GameLibrary.Run` | app/games/page.js:117-138 | A sequence of events moves the page forward by at most one per event. No events change nothing. |
| `GameLibrary.RunKeepsPagePositive` | app/games/page.js:117-138 | After any sequence of events from a state on page 1 or later, the page is still at least 1. |
| `GameLibrary.Scroll` | app/games/page.js:71-74 | Receiving listings and pressing "Load more" (lines 134-138) never moves the page back, and advances it at most once per listing. A request is then in flight. |
| `GameLibrary.ScrollAppends` | app/games/page.js:71-74 | Past page 1, a run of ok listings with a `next` link appends their results in order, one page per listing. |
| `GameLibrary.ScrollFromFirstPage` | app/games/page.js:71-74 | From page 1, the shown list after such a run is the concatenation of the listings' results. |
| `GameLibrary.LastPageStopsLoadMore` | app/games/page.js:134-138 | After an ok listing with no `next` (line 74), `loadMore` does nothing and the grid has no "Load more" button (line 384). |
| `GameLibrary.FilterChangeKeepsStalePages` | app/games/page.js:290 | As written, choosing a filter on page 2 or later requests that page of the new listing, not page 1. Its games are appended to the old filter's games. |
| `GameLibrary.SelectFilter` | app/games/page.js:290 | The corrected filter choice: it sets the one selection and returns to page 1 with no games. |
| `GameLibrary.SelectFilterShowsOnlyNewResults` | app/games/page.js:290 | After the corrected choice the request asks for page 1, and the first ok listing is exactly what is shown. |
| `GameLibrary.NoGamesMessage` | app/games/page.js:372-374 | The empty-grid notice quotes the submitted query when there is one. |
| `GameLibrary.GridView` | app/games/page.js:362-403 | The spinner shows exactly while loading with no games. Then comes the error, then the empty notice. Otherwise the games show, with "Load more" exactly outside a search while more pages exist. |
| `GameLibrary.ResubmitEmptiesGrid` | app/games/page.js:117-122 | As written, submitting the same query again on page 1 changes no input of the fetching effect, yet the grid is emptied and reports no games. |
| `GameLibrary.ResubmitOnFreshPage` | app/games/page.js:117-122 | On the freshly loaded page, pressing Search with the box empty replaces the loaded games with the "no games" notice. |
| `GameLibrary.SubmitSearch` | app/games/page.js:117-122 | The corrected submit sets the query, and either returns to page 1 or changes nothing. |
| `GameLibrary.SubmitSearchKeepsOrRefetches` | app/games/page.js:117-122 | After the corrected submit, the shown games are discarded only when a new request follows. It changes nothing exactly when the request would be unchanged. |
| `Home.NewsRequestParams` | app/page.js:20-22 | The request carries the key, the fixed release window, newest-first ordering and ten per page, and nothing else. |
| `Home.NewsUrl` | app/page.js:20-22 | The concatenated request is the games endpoint with the key, the release window, the ordering and the page size, in that order. |
| `Home.TypeSearch` | app/page.js:55 | Typing changes only the search term. The games, loading and error stay. |
| `Home.BeginFetch` | app/page.js:17 | Starting a request turns loading on and keeps the games, error and term. |
| `Home.FilterNews` | app/page.js:36-38 | A game is listed exactly when it was loaded and its lowered name contains the lowered term. The list never grows. |
| `Home.FilterNewsConcat` | app/page.js:36-38 | Filtering a concatenation filters each part, in order. |
| `Home.FilterNewsKeepsMatching` | app/page.js:36-38 | A list whose games all match comes through unchanged. |
| `Home.EmptySearchShowsAll` | app/page.js:36-38 | An empty search box shows every loaded game, in order. |
| `Home.FilterNewsIdempotent` | app/page.js:36-38 | Filtering twice with one term is filtering once. |
| `Home.SearchIgnoresCase` | app/page.js:36-38 | Upper-casing or lower-casing the term does not change the list. |
| `Home.NarrowingSearch` | app/page.js:36-38 | Extending the term only removes games. The longer term's list is the shorter term's list filtered again. |
| `Home.Featured` | app/page.js:88 | The highlights are the first min(3, n) matches. |
| `Home.Latest` | app/page.js:113 | The rest is the matches after the third, and is empty when there are three or fewer. |
| `Home.FeaturedLatestPartition` | app/page.js:88-113 | The highlights followed by the rest are exactly the matches. The rest is non-empty only after three highlights. |
| `Home.FinishFetch` | app/page.js:16-35 | As written, a loaded listing replaces the games and keeps any earlier error. A failure records "Failed to load gaming news. Please try again later." and keeps the games. Loading ends. |
| `Home.ErrorOutlivesRefresh` | app/page.js:16-35 | After a failed request, a successful Refresh loads the games, but both sections keep showing the error. |
| `Home.FinishFetchClearingError` | app/page.js:16-35 | The corrected end of a request: a loaded listing replaces the games and clears the error. |
| `Home.RefreshShowsLoadedGames` | app/page.js:16-35 | With the corrected end, a successful Refresh shows the loaded games' matches whatever happened before. |
| `Home.FeaturedView` | app/page.js:78-92 | The highlights section shows the spinner exactly while loading, then the error, then the first three matches. |
| `Home.LatestView` | app/page.js:99-117 | The latest section shows the spinner while loading, then the error. The "no games found" notice shows exactly when nothing matches. Otherwise it shows the matches after the third. |
| `Home.ShownCardsAreTheMatches` | app/page.js:78-117 | Once loaded without error, the cards of the two sections are exactly the matches, in order. When nothing matches, there are no highlight cards. |
| `Collections.PopularFranchisesShape` | app/collections/page.js:25-96 | There are ten popular franchises with ids 1 to 10 in order and pairwise distinct slugs. |
| `Collections.Mount` | app/collections/page.js:99-102 | On mount, the popular franchises are shown and loading ends. |
| `Collections.TypeSearch` | app/collections/page.js:218 | Typing changes only the search term. The shown franchises and the error stay. |
| `Collections.FranchiseName` | app/collections/page.js:129-131 | The entry's name is either the first game's name or the term followed by " Games". |
| `Collections.FranchiseNameShowsTerm` | app/collections/page.js:129-131 | The name always contains the term. It is the game's own name exactly when that name contains the term, case-sensitively. |
| `Collections.FranchiseOf` | app/collections/page.js:127-134 | The entry takes the first result's id, slug and image, and the chosen name. |
| `Collections.SearchRequestParams` | app/collections/page.js:115-119 | A search request carries the key, the encoded term and the page size, and nothing else. |
| `Collections.SearchUrl` | app/collections/page.js:115-119 | The concatenated search request, and the fallback's at lines 162-166, is the games endpoint with the key, the encoded term and the page size, in that order. |
| `Collections.SearchRequest` | app/collections/page.js:107-119 | No request is sent exactly when the term is blank after `trim`. Otherwise a 20-result search for the term as typed is sent. |
| `Collections.HandleSearch` | app/collections/page.js:105-146 | A blank term restores the popular franchises and changes nothing else. An ok listing gives one entry from its first game, or none when empty. A failure records the search error and keeps the list. |
| `Collections.SearchShowsAtMostOne` | app/collections/page.js:125-139 | A successful search shows at most one franchise. It shows one exactly when a game was found, and its name contains the term. |
| `Collections.SeriesRequests` | app/collections/page.js:153-166 | The series listing is always requested first. The 40-result name search follows exactly when the series listing answered with a non-ok status. |
| `Collections.SeriesUrl` | app/collections/page.js:153-155 | The series request is the franchise's `game-series` path with the key and `page_size=40`, in that order. |
| `Collections.SeriesRequestParams` | app/collections/page.js:153-155 | For a slug without `?`, the series request reads back as exactly the key and the page size. |
| `Collections.SelectSeries` | app/collections/page.js:149-184 | The franchise is selected. An ok series listing supplies the games. After a non-ok one, an ok name search supplies them. Any other outcome records the series error and keeps the old games. |
| `Collections.FallbackOnlyWhenNeeded` | app/collections/page.js:157-172 | When no fallback is needed, the fallback's answer does not affect the result. |
| `Collections.Deselect` | app/collections/page.js:295 | "Back to Franchises" clears only the selection. |
| `Collections.ListHeading` | app/collections/page.js:242 | The heading reads "Search Results" exactly when the search box holds any text. |
| `Collections.ShowList` | app/collections/page.js:230-280 | The franchise list shows the spinner exactly while loading, then the error. The empty notice shows exactly when no franchise is held. Otherwise it shows the held franchises. |
| `Collections.ShowSeries` | app/collections/page.js:303-322 | The franchise page shows its spinner exactly while its games load, then the error. The empty notice shows exactly when there are no games. Otherwise it shows the games. |
| `Collections.SeriesErrorReachesList` | app/collections/page.js:175-177 | The error is shared and never cleared. After a failed series load, going back shows the series error in place of the franchises. |
| `Collections.VisibleTags` | app/collections/page.js:366-383 | A card shows the first min(3, n) genres or platforms. |
| `Collections.MoreBadge` | app/collections/page.js:384-388 | The `+N more` badge appears exactly beyond three platforms, with N at least 1. |
| `Collections.BadgeCountsTheRest` | app/collections/page.js:376-388 | The shown platforms plus N account for every platform exactly once. |
| `GamingNewsRoute.SourcesSplitBack` | app/api/gaming-news/route.js:8-29 | Splitting the `domains` value at its commas gives back the twelve sites, in order. |
| `GamingNewsRoute.Domains` | app/api/gaming-news/route.js:29 | The `domains` value holds twelve comma-separated parts. |
| `GamingNewsRoute.QueryUrl` | app/api/gaming-news/route.js:26-34 | The concatenated request is the NewsAPI endpoint with `q`, `domains`, `language`, `sortBy`, `pageSize` and `apiKey`, in that order. |
| `GamingNewsRoute.NewsApiRequest` | app/api/gaming-news/route.js:26-34 | The upstream request carries the keywords, the sites, English, `publishedAt` ordering, 50 per page and the key, in that order. Its `domains` value splits back into the sites. |
| `GamingNewsRoute.SourceName` | app/api/gaming-news/route.js:55-57 | The source name is the article's non-empty source name, else "Gaming News". It is never empty. |
| `GamingNewsRoute.ToNewsItem` | app/api/gaming-news/route.js:48-58 | Title, url, image and publish date are copied, and the summary is the description. The text is the description when non-empty, else the content. |
| `GamingNewsRoute.NewsTextPresence` | app/api/gaming-news/route.js:50-51 | A record has non-empty text exactly when the article has a non-empty description or content. A non-empty description is both text and summary. |
| `GamingNewsRoute.ToNewsItems` | app/api/gaming-news/route.js:48-58 | The news list has one record per article, in order. A missing `articles` gives an empty list. |
| `GamingNewsRoute.NewsItemsConcat` | app/api/gaming-news/route.js:48-58 | Reshaping distributes over concatenation, so no article is dropped, duplicated or moved. |
| `GamingNewsRoute.InternalError` | app/api/gaming-news/route.js:62-64 | A thrown error gives status 500 with its message, or "Internal server error" when the message is empty. |
| `GamingNewsRoute.Get` | app/api/gaming-news/route.js:2-66 | The route answers with news exactly when upstream answered ok with readable JSON, and then with status 200. A non-ok answer passes its status through with its message, or "NewsAPI error". Failures give 500. No error body is empty. |
| `GamingNewsRoute.UpstreamStatusPassesThrough` | app/api/gaming-news/route.js:38-42 | A non-ok upstream answer gives an error with the same status. |
| `GamingNewsRoute.OkGivesOneRecordPerArticle` | app/api/gaming-news/route.js:44-61 | A readable ok answer gives status 200 and one record per upstream article, or none when `articles` is missing. |
| `Text.ContainsIffOccurs` | app/page.js:37 | The recursive `includes` holds exactly when the term occurs at some position. |
| `Text.TrimEmptyIffBlank` | app/collections/page.js:107 | `trim()` gives the empty string exactly when every character is ECMAScript whitespace or a line terminator. |
| `Text.ParseNatToString` | app/games/page.js:39 | The decimal rendering of a number in a template literal reads back to the number. |
| `Text.SplitJoin` | app/api/gaming-news/route.js:29 | Splitting at the separator undoes `join` when no part contains the separator. |
| `Query.ParamsOfBuildUrl` | app/games/page.js:38-58 | Reading back a URL built from well-formed parameters gives exactly those parameters, in order. |

## Left out

- Rendering markup, CSS classes, icons, routing (`router.back`, links) and the
  `SidebarPopup` and game-details components are not modelled. Only the
  branch each view takes and the items it shows are.
- Network I/O, JSON decoding and React scheduling are not modelled. Each
  request's outcome is an input, and each handler is one function applied
  once the outcome is known. Interleavings of concurrent requests are not
  modelled.
- `encodeURIComponent` is the `encode` parameter. The query reader does no
  percent-decoding, so the round-trip lemmas require that encoded values
  contain no `&`, which `encodeURIComponent` ensures.
- `toLowerCase` and `toUpperCase` map only ASCII letters. Unicode case mapping
  is not modelled.
- The dates and ordering query parameters of the three best-of-the-year requests
  (`app/best-of-year/page.js:41-62`) are not modelled. Only their outcomes are.
- `selectedYear`, `expandedGame`, `fetchGameDetails` and the year picker's
  markup on the best-of-the-year page are left out. They only choose what to
  show.
- The contents of the developer, platform and genre option lists
  (`app/games/page.js:76-105`) are not modelled. Their requests run in the
  same `try` as the games request, so their outcome is an input
  (`GameLibrary.OptionLists`). When one of them throws, its message replaces
  the games just stored with an error in the grid, and loading ends only
  after all three (`GameLibrary.OptionListFailureHidesGames`,
  `GameLibrary.NoLoadMoreWhileOptionsLoad`). `showFilters` and the chip labels
  are left out.
- The game library records "Failed to fetch games" for a non-ok listing. A
  games `fetch` that rejects would reach the same `catch`
  (`GameLibrary.CatchError`) with the runtime's message. Responses are inputs
  that always arrive, so that case is not modelled.
- `GameLibrary.ApplyFetch`: `next` is `Option`, so an absent `next`
  (`undefined`, which the source treats as "more pages") is not
  distinguished from `null`.
- Release dates (`Date`, `getFullYear`, `toLocaleDateString`) and
  `rating.toFixed(1)` are not modelled. They depend on the locale and on
  floating point.
- The news route's `console` logging is left out. The route's `gamingKeywords`
  is the constant `GamingKeywords`, passed through `encode`.
- The star row of a franchise card (`Math.round(game.rating)` at
  `app/collections/page.js:331-355`) is not modelled. It is floating-point
  display only.

## Findings

| source | as written | input that shows it | evidently intended | confidence | as-written member | corrected member |
|---|---|---|---|---|---|---|
| app/games/page.js:290 | Choosing a developer, platform or genre (lines 290, 317, 344) and removing a chip (216-238) change the selection only. The page number and the shown games are kept. | On page 2 with games [g1], choose developer 7 and receive [g2]. The request asks for `page=2` of the filtered listing, and the grid shows [g1, g2]. | Like a search, a filter change should return to page 1 and show only the new listing. | not executed | `GameLibrary.FilterChangeKeepsStalePages` | `GameLibrary.SelectFilterShowsOnlyNewResults` |
| app/games/page.js:117-122 | `handleSearch` always empties the games and sets page 1. When the query and page were already those values, no input of the fetching effect changes, and nothing reloads the list. | On the freshly loaded page (page 1, no query), press Search with the box empty. The grid shows "No games found matching your criteria." | A submit that changes nothing should keep the list, or start a new request. | not executed | `GameLibrary.ResubmitOnFreshPage` | `GameLibrary.SubmitSearchKeepsOrRefetches` |
| app/page.js:16-35 | `fetchGamingNews` sets the error on failure and never clears it. A later success loads the games, but both sections keep rendering the error branch. | Start, fail one request, then press Refresh and receive [g]. Both sections show "Failed to load gaming news. Please try again later." | A successful fetch should clear the earlier error. | not executed | `Home.ErrorOutlivesRefresh` | `Home.RefreshShowsLoadedGames` |
