/**
 The game library page (app/games/page.js): the request URL built from the
 active filters, and the page state (`games`, `page`, `hasMore`, the typed and
 submitted search strings, the three single-valued selections) as a record
 changed by pure transition functions, one per handler.
 */
module GameLibrary {
  import opened Wrappers
  import opened Text
  import opened Query
  import opened Rawg

  datatype LibraryState = LibraryState(
    games: seq<Game>,
    loading: bool,
    error: Option<string>,
    searchTerm: string,
    searchQuery: string,
    selectedDeveloper: Option<nat>,
    selectedPlatform: Option<nat>,
    selectedGenre: Option<nat>,
    page: nat,
    hasMore: bool)

  /** The state the page starts in. */
  const Initial: LibraryState := LibraryState([], true, None, "", "", None, None, None, 1, true)

  /** A selection counts in a JavaScript condition when it is set and not the id 0. */
  predicate IsSelected(sel: Option<nat>) {
    sel.Some? && sel.value != 0
  }

  /**
   `buildApiUrl`: the endpoint with the key, `page_size=40` and the current page,
   then `search`, `developers`, `platforms` and `genres` for each active filter,
   in that order. `encode` stands for `encodeURIComponent`.
   */
  function BuildApiUrl(st: LibraryState, apiKey: string, encode: string -> string): (r: string)
    ensures BaseUrl(st, apiKey) <= r
    ensures (st.searchQuery == "" && !IsSelected(st.selectedDeveloper) && !IsSelected(st.selectedPlatform)
      && !IsSelected(st.selectedGenre)) ==> r == BaseUrl(st, apiKey)
  {
    var url := BaseUrl(st, apiKey);
    var url := AddIf(url, st.searchQuery != "", "search", encode(st.searchQuery));
    var url := AddIf(url, IsSelected(st.selectedDeveloper), "developers", NatToString(st.selectedDeveloper.GetOr(0)));
    var url := AddIf(url, IsSelected(st.selectedPlatform), "platforms", NatToString(st.selectedPlatform.GetOr(0)));
    AddIf(url, IsSelected(st.selectedGenre), "genres", NatToString(st.selectedGenre.GetOr(0)))
  }

  /** `${base}?key=${apiKey}&page_size=40&page=${page}`. */
  function BaseUrl(st: LibraryState, apiKey: string): string {
    WithParam(WithParam(GamesEndpoint + "?" + "key" + "=" + apiKey, "page_size", "40"), "page", NatToString(st.page))
  }

  /** `if (present) url += `&name=${value}``. */
  function AddIf(url: string, present: bool, name: string, value: string): (r: string)
    ensures url <= r && (r == url <==> !present)
  {
    if present then WithParam(url, name, value) else url
  }

  /** The parameters every request carries. */
  function BaseParams(st: LibraryState, apiKey: string): seq<Param> {
    [Param("key", apiKey), Param("page_size", "40"), Param("page", NatToString(st.page))]
  }

  function OptionalParam(present: bool, name: string, value: string): seq<Param> {
    if present then [Param(name, value)] else []
  }

  function SearchParam(st: LibraryState, encode: string -> string): seq<Param> {
    OptionalParam(st.searchQuery != "", "search", encode(st.searchQuery))
  }

  function DeveloperParam(st: LibraryState): seq<Param> {
    OptionalParam(IsSelected(st.selectedDeveloper), "developers", NatToString(st.selectedDeveloper.GetOr(0)))
  }

  function PlatformParam(st: LibraryState): seq<Param> {
    OptionalParam(IsSelected(st.selectedPlatform), "platforms", NatToString(st.selectedPlatform.GetOr(0)))
  }

  function GenreParam(st: LibraryState): seq<Param> {
    OptionalParam(IsSelected(st.selectedGenre), "genres", NatToString(st.selectedGenre.GetOr(0)))
  }

  /** The filter parameters of the active filters, in request order. */
  function FilterParams(st: LibraryState, encode: string -> string): seq<Param> {
    SearchParam(st, encode) + DeveloperParam(st) + PlatformParam(st) + GenreParam(st)
  }

  lemma AppendOptional(ps: seq<Param>, present: bool, name: string, value: string)
    requires |ps| >= 1
    ensures AddIf(BuildUrl(GamesEndpoint, ps), present, name, value) == BuildUrl(GamesEndpoint, ps + OptionalParam(present, name, value))
  {
    if present {
      BuildUrlAppend(GamesEndpoint, ps, Param(name, value));
    } else {
      assert ps + [] == ps;
    }
  }

  lemma BaseUrlIsBuildUrl(st: LibraryState, apiKey: string)
    ensures BaseUrl(st, apiKey) == BuildUrl(GamesEndpoint, BaseParams(st, apiKey))
  {
    var k := Param("key", apiKey);
    var z := Param("page_size", "40");
    var n := Param("page", NatToString(st.page));
    BuildUrlSingle(GamesEndpoint, k);
    BuildUrlAppend(GamesEndpoint, [k], z);
    assert [k] + [z] == [k, z];
    BuildUrlAppend(GamesEndpoint, [k, z], n);
    assert [k, z] + [n] == [k, z, n];
  }

  /** The string `buildApiUrl` concatenates is the URL of the base and filter parameters. */
  lemma BuildApiUrlIsBuildUrl(st: LibraryState, apiKey: string, encode: string -> string)
    ensures BuildApiUrl(st, apiKey, encode) == BuildUrl(GamesEndpoint, BaseParams(st, apiKey) + FilterParams(st, encode))
  {
    var base := BaseParams(st, apiKey);
    var s := SearchParam(st, encode);
    var d := DeveloperParam(st);
    var p := PlatformParam(st);
    var g := GenreParam(st);
    BaseUrlIsBuildUrl(st, apiKey);
    AppendOptional(base, st.searchQuery != "", "search", encode(st.searchQuery));
    AppendOptional(base + s, IsSelected(st.selectedDeveloper), "developers", NatToString(st.selectedDeveloper.GetOr(0)));
    AppendOptional(base + s + d, IsSelected(st.selectedPlatform), "platforms", NatToString(st.selectedPlatform.GetOr(0)));
    AppendOptional(base + s + d + p, IsSelected(st.selectedGenre), "genres", NatToString(st.selectedGenre.GetOr(0)));
    assert base + s + d + p + g == base + FilterParams(st, encode);
  }

  lemma DigitsHaveNoAmpersand(n: nat)
    ensures '&' !in NatToString(n)
  {
  }

  lemma OptionalWellFormed(present: bool, name: string, value: string)
    requires '=' !in name && '&' !in name
    requires present ==> '&' !in value
    ensures WellFormed(OptionalParam(present, name, value))
  {
  }

  /**
   Reading the request URL back gives the key, `page_size=40` and the current
   page, followed by exactly the active filters in the fixed order.
   */
  lemma BuildApiUrlParams(st: LibraryState, apiKey: string, encode: string -> string)
    requires '&' !in apiKey
    requires st.searchQuery != "" ==> '&' !in encode(st.searchQuery)
    ensures Params(BuildApiUrl(st, apiKey, encode)) == BaseParams(st, apiKey) + FilterParams(st, encode)
  {
    BuildApiUrlIsBuildUrl(st, apiKey, encode);
    RequestWellFormed(st, apiKey, encode);
    assert '?' !in GamesEndpoint;
    ParamsOfBuildUrl(GamesEndpoint, BaseParams(st, apiKey) + FilterParams(st, encode));
  }

  lemma RequestWellFormed(st: LibraryState, apiKey: string, encode: string -> string)
    requires '&' !in apiKey
    requires st.searchQuery != "" ==> '&' !in encode(st.searchQuery)
    ensures WellFormed(BaseParams(st, apiKey) + FilterParams(st, encode))
  {
    BaseWellFormed(st, apiKey);
    FilterWellFormed(st, encode);
    WellFormedConcat(BaseParams(st, apiKey), FilterParams(st, encode));
  }

  lemma BaseWellFormed(st: LibraryState, apiKey: string)
    requires '&' !in apiKey
    ensures WellFormed(BaseParams(st, apiKey))
  {
    DigitsHaveNoAmpersand(st.page);
  }

  lemma FilterWellFormed(st: LibraryState, encode: string -> string)
    requires st.searchQuery != "" ==> '&' !in encode(st.searchQuery)
    ensures WellFormed(FilterParams(st, encode))
  {
    DigitsHaveNoAmpersand(st.selectedDeveloper.GetOr(0));
    DigitsHaveNoAmpersand(st.selectedPlatform.GetOr(0));
    DigitsHaveNoAmpersand(st.selectedGenre.GetOr(0));
    var s := SearchParam(st, encode);
    var d := DeveloperParam(st);
    var p := PlatformParam(st);
    var g := GenreParam(st);
    OptionalWellFormed(st.searchQuery != "", "search", encode(st.searchQuery));
    OptionalWellFormed(IsSelected(st.selectedDeveloper), "developers", NatToString(st.selectedDeveloper.GetOr(0)));
    OptionalWellFormed(IsSelected(st.selectedPlatform), "platforms", NatToString(st.selectedPlatform.GetOr(0)));
    OptionalWellFormed(IsSelected(st.selectedGenre), "genres", NatToString(st.selectedGenre.GetOr(0)));
    WellFormedConcat(s, d);
    WellFormedConcat(s + d, p);
    WellFormedConcat(s + d + p, g);
  }

  /** Looking a name up in the request's parameters, part by part. */
  lemma LookupRequest(st: LibraryState, apiKey: string, encode: string -> string, name: string)
    ensures Lookup(BaseParams(st, apiKey) + FilterParams(st, encode), name) ==
      if Lookup(BaseParams(st, apiKey), name).Some? then Lookup(BaseParams(st, apiKey), name)
      else if Lookup(SearchParam(st, encode), name).Some? then Lookup(SearchParam(st, encode), name)
      else if Lookup(DeveloperParam(st), name).Some? then Lookup(DeveloperParam(st), name)
      else if Lookup(PlatformParam(st), name).Some? then Lookup(PlatformParam(st), name)
      else Lookup(GenreParam(st), name)
  {
    var base := BaseParams(st, apiKey);
    var s := SearchParam(st, encode);
    var d := DeveloperParam(st);
    var p := PlatformParam(st);
    var g := GenreParam(st);
    assert base + FilterParams(st, encode) == base + (s + (d + (p + g)));
    LookupConcat(base, s + (d + (p + g)), name);
    LookupConcat(s, d + (p + g), name);
    LookupConcat(d, p + g, name);
    LookupConcat(p, g, name);
  }

  /** The base parameters are found first whatever filters follow them. */
  lemma LookupBase(st: LibraryState, apiKey: string, encode: string -> string)
    ensures var ps := BaseParams(st, apiKey) + FilterParams(st, encode);
      && Lookup(ps, "key") == Some(apiKey)
      && Lookup(ps, "page_size") == Some("40")
      && Lookup(ps, "page") == Some(NatToString(st.page))
  {
    var base := BaseParams(st, apiKey);
    var f := FilterParams(st, encode);
    assert Lookup(base, "key") == Some(apiKey);
    assert Lookup(base[1..], "page_size") == Some("40");
    assert Lookup(base[1..][1..], "page") == Some(NatToString(st.page));
    assert "key" != "page_size" && "key" != "page" && "page_size" != "page";
    LookupConcat(base, f, "key");
    LookupConcat(base, f, "page_size");
    LookupConcat(base, f, "page");
  }

  lemma LookupBaseMiss(st: LibraryState, apiKey: string, name: string)
    requires name != "key" && name != "page_size" && name != "page"
    ensures Lookup(BaseParams(st, apiKey), name).None?
  {
    var base := BaseParams(st, apiKey);
    assert Lookup(base[1..][1..][1..], name).None?;
  }

  lemma LookupOptional(present: bool, name: string, value: string, n: string)
    ensures Lookup(OptionalParam(present, name, value), n) == if present && name == n then Some(value) else None
  {
  }

  /** A filter name is found among the filters only, and only when that filter is active. */
  lemma LookupFilters(st: LibraryState, apiKey: string, encode: string -> string)
    ensures var ps := BaseParams(st, apiKey) + FilterParams(st, encode);
      && Lookup(ps, "search") == (if st.searchQuery != "" then Some(encode(st.searchQuery)) else None)
      && Lookup(ps, "developers") == (if IsSelected(st.selectedDeveloper) then Some(NatToString(st.selectedDeveloper.value)) else None)
      && Lookup(ps, "platforms") == (if IsSelected(st.selectedPlatform) then Some(NatToString(st.selectedPlatform.value)) else None)
      && Lookup(ps, "genres") == (if IsSelected(st.selectedGenre) then Some(NatToString(st.selectedGenre.value)) else None)
  {
    LookupFilter(st, apiKey, encode, "search");
    LookupFilter(st, apiKey, encode, "developers");
    LookupFilter(st, apiKey, encode, "platforms");
    LookupFilter(st, apiKey, encode, "genres");
  }

  lemma LookupFilter(st: LibraryState, apiKey: string, encode: string -> string, n: string)
    requires n == "search" || n == "developers" || n == "platforms" || n == "genres"
    ensures Lookup(BaseParams(st, apiKey) + FilterParams(st, encode), n) ==
      if n == "search" then (if st.searchQuery != "" then Some(encode(st.searchQuery)) else None)
      else if n == "developers" then (if IsSelected(st.selectedDeveloper) then Some(NatToString(st.selectedDeveloper.value)) else None)
      else if n == "platforms" then (if IsSelected(st.selectedPlatform) then Some(NatToString(st.selectedPlatform.value)) else None)
      else (if IsSelected(st.selectedGenre) then Some(NatToString(st.selectedGenre.value)) else None)
  {
    assert n != "key" && n != "page_size" && n != "page";
    LookupBaseMiss(st, apiKey, n);
    LookupRequest(st, apiKey, encode, n);
    LookupOptional(st.searchQuery != "", "search", encode(st.searchQuery), n);
    LookupOptional(IsSelected(st.selectedDeveloper), "developers", NatToString(st.selectedDeveloper.GetOr(0)), n);
    LookupOptional(IsSelected(st.selectedPlatform), "platforms", NatToString(st.selectedPlatform.GetOr(0)), n);
    LookupOptional(IsSelected(st.selectedGenre), "genres", NatToString(st.selectedGenre.GetOr(0)), n);
  }

  /**
   The request always carries the key, `page_size=40` and the current page;
   `search` is present exactly when the submitted query is non-empty, and each
   of `developers`, `platforms`, `genres` exactly when its selection is set.
   */
  lemma BuildApiUrlLookups(st: LibraryState, apiKey: string, encode: string -> string)
    requires '&' !in apiKey
    requires st.searchQuery != "" ==> '&' !in encode(st.searchQuery)
    ensures var ps := Params(BuildApiUrl(st, apiKey, encode));
      && Lookup(ps, "key") == Some(apiKey)
      && Lookup(ps, "page_size") == Some("40")
      && Lookup(ps, "page") == Some(NatToString(st.page))
      && Lookup(ps, "search") == (if st.searchQuery != "" then Some(encode(st.searchQuery)) else None)
      && Lookup(ps, "developers") == (if IsSelected(st.selectedDeveloper) then Some(NatToString(st.selectedDeveloper.value)) else None)
      && Lookup(ps, "platforms") == (if IsSelected(st.selectedPlatform) then Some(NatToString(st.selectedPlatform.value)) else None)
      && Lookup(ps, "genres") == (if IsSelected(st.selectedGenre) then Some(NatToString(st.selectedGenre.value)) else None)
  {
    BuildApiUrlParams(st, apiKey, encode);
    LookupBase(st, apiKey, encode);
    LookupFilters(st, apiKey, encode);
  }

  /** The search box's `onChange`, and its clear button with `term == ""`. */
  function TypeSearchTerm(st: LibraryState, term: string): (r: LibraryState)
    ensures r.searchTerm == term
    ensures r == st.(searchTerm := term)
  {
    st.(searchTerm := term)
  }

  /** `handleSearch`: submit the typed term and restart from an empty first page. */
  function HandleSearch(st: LibraryState): (r: LibraryState)
    ensures r.searchQuery == st.searchTerm && r.page == 1 && r.games == []
    ensures r.selectedDeveloper == st.selectedDeveloper
    ensures r.selectedPlatform == st.selectedPlatform
    ensures r.selectedGenre == st.selectedGenre
    ensures r.searchTerm == st.searchTerm && r.hasMore == st.hasMore
    ensures r.loading == st.loading && r.error == st.error
  {
    st.(searchQuery := st.searchTerm, page := 1, games := [])
  }

  /** `clearFilters`: drop every filter and both search strings, back to an empty first page. */
  function ClearFilters(st: LibraryState): (r: LibraryState)
    ensures r.selectedDeveloper.None? && r.selectedPlatform.None? && r.selectedGenre.None?
    ensures r.searchTerm == "" && r.searchQuery == ""
    ensures r.page == 1 && r.games == []
    ensures r.hasMore == st.hasMore && r.loading == st.loading && r.error == st.error
  {
    st.(selectedDeveloper := None, selectedPlatform := None, selectedGenre := None,
        searchTerm := "", searchQuery := "", page := 1, games := [])
  }

  /** The remove button on the "Search" chip: clears both search strings, keeps the selections. */
  function ClearSearch(st: LibraryState): (r: LibraryState)
    ensures r.searchTerm == "" && r.searchQuery == ""
    ensures r.page == 1 && r.games == []
    ensures r.selectedDeveloper == st.selectedDeveloper
    ensures r.selectedPlatform == st.selectedPlatform
    ensures r.selectedGenre == st.selectedGenre
    ensures r.hasMore == st.hasMore && r.loading == st.loading && r.error == st.error
  {
    st.(searchTerm := "", searchQuery := "", page := 1, games := [])
  }

  /** `loadMore`: one page further, only when idle and more pages exist. */
  function LoadMore(st: LibraryState): (r: LibraryState)
    ensures !st.loading && st.hasMore ==> r.page == st.page + 1 && r == st.(page := r.page)
    ensures st.loading || !st.hasMore ==> r == st
  {
    if !st.loading && st.hasMore then st.(page := st.page + 1) else st
  }

  datatype FilterKind = Developer | Platform | Genre

  /**
   A filter's radio button or its chip's remove button: the selection alone
   changes, as written; `page` and `games` are left as they are.
   */
  function SetFilter(st: LibraryState, kind: FilterKind, sel: Option<nat>): (r: LibraryState)
    ensures r.page == st.page && r.games == st.games
    ensures kind == Developer ==> r == st.(selectedDeveloper := sel)
    ensures kind == Platform ==> r == st.(selectedPlatform := sel)
    ensures kind == Genre ==> r == st.(selectedGenre := sel)
  {
    match kind
    case Developer => st.(selectedDeveloper := sel)
    case Platform => st.(selectedPlatform := sel)
    case Genre => st.(selectedGenre := sel)
  }

  /** The effect starts a request. */
  function BeginFetch(st: LibraryState): (r: LibraryState)
    ensures r.loading && r == st.(loading := true)
  {
    st.(loading := true)
  }

  const FetchErrorMessage: string := "Failed to fetch games"

  /**
   The effect's update once the listing arrives: page 1 replaces `games`, a
   later page is appended; `hasMore` follows `next`. A failed response leaves
   the list alone and records the error. Loading ends either way.
   */
  function ApplyFetch(st: LibraryState, resp: Response): (r: LibraryState)
    ensures !r.loading && r.page == st.page
    ensures r.searchQuery == st.searchQuery && r.searchTerm == st.searchTerm
    ensures r.selectedDeveloper == st.selectedDeveloper
    ensures r.selectedPlatform == st.selectedPlatform
    ensures r.selectedGenre == st.selectedGenre
    ensures resp.ok && st.page == 1 ==> r.games == resp.results
    ensures resp.ok && st.page != 1 ==> r.games == st.games + resp.results
    ensures resp.ok ==> (r.hasMore <==> resp.next.Some?) && r.error == st.error
    ensures !resp.ok ==> r.games == st.games && r.hasMore == st.hasMore && r.error == Some(FetchErrorMessage)
  {
    if !resp.ok then st.(loading := false, error := Some(FetchErrorMessage))
    else
      var games := if st.page == 1 then resp.results else st.games + resp.results;
      st.(games := games, hasMore := resp.next != None, loading := false)
  }

  /**
   The requests for the developer, platform and genre option lists, sent in the
   same `try` after the listing is stored. A non-ok answer is skipped, so they
   either complete (or are not needed) or one of them throws.
   */
  datatype OptionLists = ListsLoaded | ListsFailed(message: string)

  /** The listing is stored while loading goes on: page 1 replaces `games`, a later page appends. */
  function StoreListing(st: LibraryState, results: seq<Game>, next: Option<string>): (r: LibraryState)
    ensures r.loading == st.loading && r.error == st.error && r.page == st.page
    ensures st.page == 1 ==> r.games == results
    ensures st.page != 1 ==> r.games == st.games + results
    ensures r.hasMore <==> next.Some?
    ensures r.(games := st.games, hasMore := st.hasMore) == st
  {
    var games := if st.page == 1 then results else st.games + results;
    st.(games := games, hasMore := next != None)
  }

  /** The end of the `try`: loading ends and nothing else changes. */
  function FinishLoading(st: LibraryState): (r: LibraryState)
    ensures !r.loading && r.(loading := st.loading) == st
  {
    st.(loading := false)
  }

  /** The `catch`: the thrown message becomes the error and loading ends; the games already stored stay. */
  function CatchError(st: LibraryState, message: string): (r: LibraryState)
    ensures !r.loading && r.error == Some(message)
    ensures r.(loading := st.loading, error := st.error) == st
  {
    st.(error := Some(message), loading := false)
  }

  /**
   The whole arrival: a non-ok listing throws "Failed to fetch games" before
   anything is stored; an ok one is stored, and then the option lists decide
   whether the `try` finishes or the `catch` records their error.
   */
  function ArriveWithOptions(st: LibraryState, resp: Response, lists: OptionLists): (r: LibraryState)
    ensures !r.loading && r.page == st.page && r.searchQuery == st.searchQuery
    ensures !resp.ok ==> r.games == st.games && r.error == Some(FetchErrorMessage)
    ensures resp.ok ==> r.games == (if st.page == 1 then resp.results else st.games + resp.results)
    ensures resp.ok ==> (r.hasMore <==> resp.next.Some?)
    ensures resp.ok ==> r.error == (if lists.ListsFailed? then Some(lists.message) else st.error)
  {
    if !resp.ok then CatchError(st, FetchErrorMessage)
    else
      var stored := StoreListing(st, resp.results, resp.next);
      match lists
      case ListsLoaded => FinishLoading(stored)
      case ListsFailed(message) => CatchError(stored, message)
  }

  /** `ApplyFetch` is the arrival in which the option lists do not throw. */
  lemma ApplyFetchIsListsLoaded(st: LibraryState, resp: Response)
    ensures ApplyFetch(st, resp) == ArriveWithOptions(st, resp, ListsLoaded)
  {
  }

  /**
   An option list that throws after the listing was stored hides the stored
   games: the grid shows the thrown message although `games` holds the listing.
   */
  lemma OptionListFailureHidesGames(st: LibraryState, resp: Response, message: string)
    requires resp.ok
    ensures var r := ArriveWithOptions(st, resp, ListsFailed(message));
      && r.games == (if st.page == 1 then resp.results else st.games + resp.results)
      && GridView(r) == GridError(message)
  {
  }

  /**
   While the option lists load, the listing is already stored but loading has
   not ended, so "Load more" is refused.
   */
  lemma NoLoadMoreWhileOptionsLoad(st: LibraryState, resp: Response)
    requires resp.ok
    ensures var s := StoreListing(BeginFetch(st), resp.results, resp.next);
      s.loading && LoadMore(s) == s
  {
  }

  /** One user action or effect step. */
  datatype Event =
    | Type(term: string)
    | Submit
    | Clear
    | ClearSearchChip
    | More
    | Select(kind: FilterKind, sel: Option<nat>)
    | Begin
    | Arrive(resp: Response, lists: OptionLists)

  function Step(st: LibraryState, e: Event): (r: LibraryState)
    ensures st.page >= 1 ==> r.page >= 1
    ensures r.page == st.page || r.page == 1 || r.page == st.page + 1
  {
    match e
    case Type(term) => TypeSearchTerm(st, term)
    case Submit => HandleSearch(st)
    case Clear => ClearFilters(st)
    case ClearSearchChip => ClearSearch(st)
    case More => LoadMore(st)
    case Select(kind, sel) => SetFilter(st, kind, sel)
    case Begin => BeginFetch(st)
    case Arrive(resp, lists) => ArriveWithOptions(st, resp, lists)
  }

  /** The events applied in order; each one moves the page forward by at most one. */
  function Run(st: LibraryState, es: seq<Event>): (r: LibraryState)
    ensures r.page <= st.page + |es|
    ensures |es| == 0 ==> r == st
    decreases |es|
  {
    if |es| == 0 then st else Run(Step(st, es[0]), es[1..])
  }

  /** From the initial state, whatever happens, the requested page is at least 1. */
  lemma {:induction false} RunKeepsPagePositive(st: LibraryState, es: seq<Event>)
    requires st.page >= 1
    ensures Run(st, es).page >= 1
    decreases |es|
  {
    if |es| > 0 {
      RunKeepsPagePositive(Step(st, es[0]), es[1..]);
    }
  }

  /** Submitting a search requests the first page of the typed term, with the selections kept. */
  lemma HandleSearchRequest(st: LibraryState, apiKey: string, encode: string -> string)
    requires '&' !in apiKey
    requires st.searchTerm != "" ==> '&' !in encode(st.searchTerm)
    ensures Params(BuildApiUrl(HandleSearch(st), apiKey, encode))
      == [Param("key", apiKey), Param("page_size", "40"), Param("page", "1")]
         + FilterParams(st.(searchQuery := st.searchTerm), encode)
  {
    var h := HandleSearch(st);
    BuildApiUrlParams(h, apiKey, encode);
    RenderFirstPage();
    assert BaseParams(h, apiKey) == [Param("key", apiKey), Param("page_size", "40"), Param("page", "1")];
    assert FilterParams(h, encode) == FilterParams(st.(searchQuery := st.searchTerm), encode);
  }

  /** After clearing, the request carries no filter at all and asks for page 1. */
  lemma ClearFiltersRequest(st: LibraryState, apiKey: string, encode: string -> string)
    requires '&' !in apiKey
    ensures Params(BuildApiUrl(ClearFilters(st), apiKey, encode))
      == [Param("key", apiKey), Param("page_size", "40"), Param("page", "1")]
  {
    var r := ClearFilters(st);
    BuildApiUrlParams(r, apiKey, encode);
    assert FilterParams(r, encode) == [];
  }

  /** Clearing forgets everything a search did; clearing twice is clearing once. */
  lemma ClearFiltersAbsorbs(st: LibraryState)
    ensures ClearFilters(HandleSearch(st)) == ClearFilters(st)
    ensures ClearFilters(ClearSearch(st)) == ClearFilters(st)
    ensures ClearFilters(ClearFilters(st)) == ClearFilters(st)
  {
  }

  /** The concatenation of the results of a run of listings. */
  function Flatten(resps: seq<Response>): seq<Game>
    decreases |resps|
  {
    if |resps| == 0 then [] else resps[0].results + Flatten(resps[1..])
  }

  /** Every listing succeeded and announced a further page. */
  predicate AllOkWithNext(resps: seq<Response>) {
    forall i :: 0 <= i < |resps| ==> resps[i].ok && resps[i].next.Some?
  }

  /** Receive a listing, press "Load more", and start the next request; repeated for each listing. */
  function Scroll(st: LibraryState, resps: seq<Response>): (r: LibraryState)
    ensures st.page <= r.page <= st.page + |resps|
    ensures |resps| > 0 ==> r.loading
    decreases |resps|
  {
    if |resps| == 0 then st else Scroll(BeginFetch(LoadMore(ApplyFetch(st, resps[0]))), resps[1..])
  }

  /** Past the first page, scrolling appends each listing's results in order and advances one page per listing. */
  lemma {:induction false} ScrollAppends(st: LibraryState, resps: seq<Response>)
    requires st.page > 1
    requires AllOkWithNext(resps)
    ensures Scroll(st, resps).games == st.games + Flatten(resps)
    ensures Scroll(st, resps).page == st.page + |resps|
    decreases |resps|
  {
    if |resps| == 0 {
      assert st.games + [] == st.games;
    } else {
      var next := BeginFetch(LoadMore(ApplyFetch(st, resps[0])));
      assert next.games == st.games + resps[0].results;
      assert AllOkWithNext(resps[1..]);
      ScrollAppends(next, resps[1..]);
      assert st.games + resps[0].results + Flatten(resps[1..]) == st.games + Flatten(resps);
    }
  }

  /**
   Starting on page 1, the list shown after scrolling through listings is the
   concatenation of their results, whatever was shown before.
   */
  lemma ScrollFromFirstPage(st: LibraryState, resps: seq<Response>)
    requires st.page == 1
    requires |resps| >= 1 && AllOkWithNext(resps)
    ensures Scroll(st, resps).games == Flatten(resps)
    ensures Scroll(st, resps).page == 1 + |resps|
  {
    var next := BeginFetch(LoadMore(ApplyFetch(st, resps[0])));
    assert next.page == 2 && next.games == resps[0].results;
    assert AllOkWithNext(resps[1..]);
    ScrollAppends(next, resps[1..]);
  }

  /** A listing without a `next` link ends the paging: no "Load more" button, and `loadMore` does nothing. */
  lemma LastPageStopsLoadMore(st: LibraryState, resp: Response)
    requires resp.ok && resp.next.None?
    ensures LoadMore(ApplyFetch(st, resp)) == ApplyFetch(st, resp)
    ensures GridView(ApplyFetch(st, resp)).GameCards? ==> !GridView(ApplyFetch(st, resp)).loadMoreButton
  {
  }

  /** The `page` parameter of a request is the state's page. */
  lemma RequestedPage(st: LibraryState, apiKey: string, encode: string -> string)
    requires '&' !in apiKey
    requires st.searchQuery != "" ==> '&' !in encode(st.searchQuery)
    ensures Lookup(Params(BuildApiUrl(st, apiKey, encode)), "page") == Some(NatToString(st.page))
  {
    BuildApiUrlParams(st, apiKey, encode);
    LookupBase(st, apiKey, encode);
  }

  /**
   As written, choosing a filter while on page 2 or later requests that same
   page of the newly filtered listing, and its games are appended after the
   games of the previous filter instead of replacing them.
   */
  lemma FilterChangeKeepsStalePages(st: LibraryState, kind: FilterKind, sel: Option<nat>, resp: Response, apiKey: string, encode: string -> string)
    requires st.page >= 2 && resp.ok
    requires '&' !in apiKey
    requires st.searchQuery != "" ==> '&' !in encode(st.searchQuery)
    ensures var st' := SetFilter(st, kind, sel);
      && Lookup(Params(BuildApiUrl(st', apiKey, encode)), "page") == Some(NatToString(st.page))
      && NatToString(st.page) != "1"
      && ApplyFetch(st', resp).games == st.games + resp.results
  {
    var st' := SetFilter(st, kind, sel);
    RequestedPage(st', apiKey, encode);
    ParseNatToString(st.page);
    assert ParseDigits("1") == 1;
  }

  /** The intended filter change: select, and restart from an empty first page like a search does. */
  function SelectFilter(st: LibraryState, kind: FilterKind, sel: Option<nat>): (r: LibraryState)
    ensures r.page == 1 && r.games == []
    ensures r.searchQuery == st.searchQuery && r.searchTerm == st.searchTerm
    ensures kind == Developer ==> r.selectedDeveloper == sel && r.selectedPlatform == st.selectedPlatform && r.selectedGenre == st.selectedGenre
    ensures kind == Platform ==> r.selectedPlatform == sel && r.selectedDeveloper == st.selectedDeveloper && r.selectedGenre == st.selectedGenre
    ensures kind == Genre ==> r.selectedGenre == sel && r.selectedDeveloper == st.selectedDeveloper && r.selectedPlatform == st.selectedPlatform
  {
    SetFilter(st, kind, sel).(page := 1, games := [])
  }

  lemma RenderFirstPage()
    ensures NatToString(1) == "1"
  {
    assert DigitChar(1) == '1';
  }

  /** After the intended filter change, the first listing to arrive is exactly what is shown. */
  lemma SelectFilterShowsOnlyNewResults(st: LibraryState, kind: FilterKind, sel: Option<nat>, resp: Response, apiKey: string, encode: string -> string)
    requires resp.ok
    requires '&' !in apiKey
    requires st.searchQuery != "" ==> '&' !in encode(st.searchQuery)
    ensures ApplyFetch(SelectFilter(st, kind, sel), resp).games == resp.results
    ensures Lookup(Params(BuildApiUrl(SelectFilter(st, kind, sel), apiKey, encode)), "page") == Some("1")
  {
    var st' := SelectFilter(st, kind, sel);
    assert st'.searchQuery == st.searchQuery && st'.page == 1;
    RequestedPage(st', apiKey, encode);
    RenderFirstPage();
  }

  /**
   The effect that fetches listings re-runs only when one of its dependencies
   changes: the page, the submitted query or a selection. Two states with the
   same dependencies ask for nothing new.
   */
  predicate SameRequest(a: LibraryState, b: LibraryState) {
    && a.page == b.page && a.searchQuery == b.searchQuery
    && a.selectedDeveloper == b.selectedDeveloper
    && a.selectedPlatform == b.selectedPlatform
    && a.selectedGenre == b.selectedGenre
  }

  /** What the games grid shows. */
  datatype Grid =
    | GridSpinner
    | GridError(message: string)
    | NoGames(message: string)
    | GameCards(games: seq<Game>, loadMoreButton: bool)

  /** The notice for an empty grid, which names the submitted query when there is one. */
  function NoGamesMessage(searchQuery: string): (r: string)
    ensures searchQuery != "" ==> Contains(r, searchQuery)
  {
    if searchQuery != "" then
      ContainsInfix("No games found for \"", searchQuery, "\". Try a different search term.");
      "No games found for \"" + searchQuery + "\". Try a different search term."
    else "No games found matching your criteria. Try adjusting your filters."
  }

  /**
   The grid: a spinner only while the first games load; then the error; then a
   notice when there are no games; otherwise the cards, with "Load more" offered
   only outside a search and while more pages exist.
   */
  function GridView(st: LibraryState): (r: Grid)
    ensures r.GridSpinner? <==> st.loading && st.games == []
    ensures r.GridError? <==> !(st.loading && st.games == []) && st.error.Some?
    ensures r.NoGames? <==> !st.loading && st.error.None? && st.games == []
    ensures r.NoGames? ==> r.message == NoGamesMessage(st.searchQuery)
    ensures r.GameCards? ==> r.games == st.games && (r.loadMoreButton <==> st.searchQuery == "" && st.hasMore)
  {
    if st.loading && |st.games| == 0 then GridSpinner
    else if st.error.Some? then GridError(st.error.value)
    else if |st.games| == 0 then NoGames(NoGamesMessage(st.searchQuery))
    else GameCards(st.games, st.searchQuery == "" && st.hasMore)
  }

  /**
   As written, submitting the search box again while it holds the submitted
   query and the first page is shown (pressing Search on a fresh page with an
   empty box, say) empties the grid, and since no dependency of the fetching
   effect changed, no request refills it: the grid reports that nothing was found.
   */
  lemma ResubmitEmptiesGrid(st: LibraryState)
    requires st.page == 1 && st.searchTerm == st.searchQuery
    requires !st.loading && st.error.None?
    ensures SameRequest(st, HandleSearch(st))
    ensures GridView(HandleSearch(st)) == NoGames(NoGamesMessage(st.searchQuery))
  {
  }

  /** The page as first loaded: page 1 of the unfiltered listing, no search. */
  lemma ResubmitOnFreshPage(g: Game)
    ensures var loaded := ApplyFetch(BeginFetch(Initial), Response(true, [g], None));
      && GridView(loaded) == GameCards([g], false)
      && GridView(HandleSearch(loaded)) == NoGames("No games found matching your criteria. Try adjusting your filters.")
  {
    var loaded := ApplyFetch(BeginFetch(Initial), Response(true, [g], None));
    ResubmitEmptiesGrid(loaded);
  }

  /** The intended submit: it restarts from an empty first page only when that makes the effect fetch again. */
  function SubmitSearch(st: LibraryState): (r: LibraryState)
    ensures r.searchQuery == st.searchTerm
    ensures r.selectedDeveloper == st.selectedDeveloper && r.selectedPlatform == st.selectedPlatform && r.selectedGenre == st.selectedGenre
    ensures r.page == 1 || r == st
  {
    var next := HandleSearch(st);
    if SameRequest(st, next) then st else next
  }

  /** After the intended submit, the shown games are discarded only when a new request will replace them. */
  lemma SubmitSearchKeepsOrRefetches(st: LibraryState)
    ensures SubmitSearch(st).games == st.games || !SameRequest(st, SubmitSearch(st))
    ensures SubmitSearch(st) == st <==> SameRequest(st, HandleSearch(st))
  {
  }
}
