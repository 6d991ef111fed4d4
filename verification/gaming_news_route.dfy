/**
 The server route `GET /api/gaming-news` (app/api/gaming-news/route.js): one
 request to NewsAPI's `everything` endpoint for gaming keywords on twelve
 gaming sites, whose articles are reshaped into the news records the client
 reads. JSON values that may be `null` or absent are `Option`s; a string
 counts in a `||` only when it is present and non-empty.
 */
module GamingNewsRoute {
  import opened Wrappers
  import opened Text
  import opened Query

  const NewsApiEndpoint: string := "https://newsapi.org/v2/everything"

  const GamingKeywords: string :=
    "gaming OR \"video games\" OR playstation OR xbox OR nintendo OR \"pc games\" OR steam OR \"game release\" OR esports OR \"game review\" OR patch OR update OR DLC"

  /** The sites the articles are restricted to. */
  const TargetSources: seq<string> := [
    "ign.com", "gamespot.com", "pcgamer.com", "polygon.com",
    "eurogamer.net", "rockpapershotgun.com", "kotaku.com", "destructoid.com",
    "theverge.com/gaming", "gameinformer.com", "vg247.com", "dualshockers.com"
  ]

  const UpstreamErrorMessage: string := "NewsAPI error"
  const InternalErrorMessage: string := "Internal server error"
  const DefaultSourceName: string := "Gaming News"

  /** HTTP status of `Response.json` without an explicit status, and of the route's failures. */
  const StatusOk: nat := 200
  const StatusInternalError: nat := 500

  /** The `domains` parameter: the sites joined by commas. */
  function Domains(): (r: string)
    ensures |Split(r, ',')| == |TargetSources|
  {
    SourcesSplitBack();
    Join(TargetSources, ',')
  }

  /** No site name contains the comma that separates them, nor the `&` that would end the parameter. */
  lemma SourcesAreSeparable()
    ensures forall i :: 0 <= i < |TargetSources| ==> ',' !in TargetSources[i] && '&' !in TargetSources[i]
  {
    FirstSourcesSeparable();
    MiddleSourcesSeparable();
    LastSourcesSeparable();
  }

  lemma FirstSourcesSeparable()
    ensures forall i :: 0 <= i < 4 ==> ',' !in TargetSources[i] && '&' !in TargetSources[i]
  {
    var t := TargetSources;
    assert ',' !in t[0] && '&' !in t[0];
    assert ',' !in t[1] && '&' !in t[1];
    assert ',' !in t[2] && '&' !in t[2];
    assert ',' !in t[3] && '&' !in t[3];
  }

  lemma MiddleSourcesSeparable()
    ensures forall i :: 4 <= i < 8 ==> ',' !in TargetSources[i] && '&' !in TargetSources[i]
  {
    var t := TargetSources;
    assert ',' !in t[4] && '&' !in t[4];
    assert ',' !in t[5] && '&' !in t[5];
    assert ',' !in t[6] && '&' !in t[6];
    assert ',' !in t[7] && '&' !in t[7];
  }

  lemma LastSourcesSeparable()
    ensures forall i :: 8 <= i < 12 ==> ',' !in TargetSources[i] && '&' !in TargetSources[i]
  {
    var t := TargetSources;
    assert ',' !in t[8] && '&' !in t[8];
    assert ',' !in t[9] && '&' !in t[9];
    assert ',' !in t[10] && '&' !in t[10];
    assert ',' !in t[11] && '&' !in t[11];
  }

  /** Splitting the `domains` value at its commas gives back the twelve sites, in order. */
  lemma SourcesSplitBack()
    ensures Split(Join(TargetSources, ','), ',') == TargetSources
  {
    SourcesAreSeparable();
    SplitJoin(TargetSources, ',');
  }

  /** A joined list without `&` in its parts has no `&`. */
  lemma {:induction false} JoinKeepsOut(parts: seq<string>, sep: char, c: char)
    requires c != sep
    requires forall i :: 0 <= i < |parts| ==> c !in parts[i]
    ensures c !in Join(parts, sep)
    decreases |parts|
  {
    if |parts| > 1 {
      JoinKeepsOut(parts[1..], sep, c);
    }
  }

  /** The upstream request, built in the order the route concatenates it; `encode` stands for `encodeURIComponent`. */
  function NewsApiUrl(apiKey: string, encode: string -> string): string {
    QueryUrl(encode(GamingKeywords), Domains(), apiKey)
  }

  /** The concatenation of the request for a given keyword query and site list. */
  function QueryUrl(q: string, domains: string, apiKey: string): (r: string)
    ensures r == BuildUrl(NewsApiEndpoint, QueryParams(q, domains, apiKey))
  {
    var ps := QueryParams(q, domains, apiKey);
    BuildUrlSingle(NewsApiEndpoint, ps[0]);
    BuildUrlAppend(NewsApiEndpoint, ps[..1], ps[1]);
    assert ps[..1] + [ps[1]] == ps[..2];
    BuildUrlAppend(NewsApiEndpoint, ps[..2], ps[2]);
    assert ps[..2] + [ps[2]] == ps[..3];
    BuildUrlAppend(NewsApiEndpoint, ps[..3], ps[3]);
    assert ps[..3] + [ps[3]] == ps[..4];
    BuildUrlAppend(NewsApiEndpoint, ps[..4], ps[4]);
    assert ps[..4] + [ps[4]] == ps[..5];
    BuildUrlAppend(NewsApiEndpoint, ps[..5], ps[5]);
    assert ps[..5] + [ps[5]] == ps;
    var url := NewsApiEndpoint + "?" + "q" + "=" + q;
    var url := WithParam(url, "domains", domains);
    var url := WithParam(url, "language", "en");
    var url := WithParam(url, "sortBy", "publishedAt");
    var url := WithParam(url, "pageSize", "50");
    WithParam(url, "apiKey", apiKey)
  }

  function QueryParams(q: string, domains: string, apiKey: string): seq<Param> {
    [Param("q", q), Param("domains", domains), Param("language", "en"),
     Param("sortBy", "publishedAt"), Param("pageSize", "50"), Param("apiKey", apiKey)]
  }

  lemma QueryParamsWellFormed(q: string, domains: string, apiKey: string)
    requires '&' !in q && '&' !in domains && '&' !in apiKey
    ensures WellFormed(QueryParams(q, domains, apiKey))
  {
    var ps := QueryParams(q, domains, apiKey);
    forall k | 0 <= k < |ps| ensures '=' !in ps[k].name && '&' !in ps[k].name && '&' !in ps[k].value {
    }
  }

  /** Reading back a request whose values have no `&` gives its six parameters. */
  lemma QueryRequest(q: string, domains: string, apiKey: string)
    requires '&' !in q && '&' !in domains && '&' !in apiKey
    ensures Params(QueryUrl(q, domains, apiKey)) == QueryParams(q, domains, apiKey)
  {
    QueryParamsWellFormed(q, domains, apiKey);
    assert '?' !in NewsApiEndpoint;
    ParamsOfBuildUrl(NewsApiEndpoint, QueryParams(q, domains, apiKey));
  }

  lemma DomainsHaveNoAmpersand()
    ensures '&' !in Domains()
  {
    SourcesAreSeparable();
    JoinKeepsOut(TargetSources, ',', '&');
  }

  /**
   The upstream request carries the encoded keywords, the twelve sites, English,
   newest first, fifty per page and the key, in that order; its `domains` value
   splits back into the sites.
   */
  lemma NewsApiRequest(apiKey: string, encode: string -> string)
    requires '&' !in apiKey && '&' !in encode(GamingKeywords)
    ensures var ps := Params(NewsApiUrl(apiKey, encode));
      && ps == QueryParams(encode(GamingKeywords), Domains(), apiKey)
      && Split(ps[1].value, ',') == TargetSources
  {
    DomainsHaveNoAmpersand();
    SourcesSplitBack();
    QueryRequestSites(encode(GamingKeywords), Domains(), apiKey, TargetSources);
  }

  /** The `domains` value read back from a request splits into the sites it was joined from. */
  lemma QueryRequestSites(q: string, domains: string, apiKey: string, sites: seq<string>)
    requires '&' !in q && '&' !in domains && '&' !in apiKey
    requires Split(domains, ',') == sites
    ensures var ps := Params(QueryUrl(q, domains, apiKey));
      && ps == QueryParams(q, domains, apiKey)
      && Split(ps[1].value, ',') == sites
  {
    QueryRequest(q, domains, apiKey);
  }

  /** A JavaScript string value in a `||`: present and non-empty. */
  predicate Truthy(s: Option<string>) {
    s.Some? && s.value != ""
  }

  datatype ArticleSource = ArticleSource(name: Option<string>)

  /** One NewsAPI article, as much of it as the route reads. */
  datatype Article = Article(
    title: Option<string>,
    description: Option<string>,
    content: Option<string>,
    url: Option<string>,
    urlToImage: Option<string>,
    publishedAt: Option<string>,
    source: Option<ArticleSource>)

  /** One record of the route's `news` list. */
  datatype NewsItem = NewsItem(
    title: Option<string>,
    text: Option<string>,
    summary: Option<string>,
    url: Option<string>,
    image: Option<string>,
    publishDate: Option<string>,
    sourceName: string)

  /** `article.source?.name || "Gaming News"`. */
  function SourceName(source: Option<ArticleSource>): (r: string)
    ensures r != ""
    ensures source.Some? && Truthy(source.value.name) ==> r == source.value.name.value
    ensures !(source.Some? && Truthy(source.value.name)) ==> r == DefaultSourceName
  {
    if source.Some? && Truthy(source.value.name) then source.value.name.value else DefaultSourceName
  }

  /** The reshaping of one article. */
  function ToNewsItem(a: Article): (r: NewsItem)
    ensures r.title == a.title && r.url == a.url && r.image == a.urlToImage && r.publishDate == a.publishedAt
    ensures r.summary == a.description
    ensures r.text == if Truthy(a.description) then a.description else a.content
    ensures r.sourceName == SourceName(a.source)
  {
    NewsItem(
      a.title,
      if Truthy(a.description) then a.description else a.content,
      a.description,
      a.url,
      a.urlToImage,
      a.publishedAt,
      SourceName(a.source))
  }

  /** A record has readable text exactly when its article has a non-empty description or content. */
  lemma NewsTextPresence(a: Article)
    ensures Truthy(ToNewsItem(a).text) <==> Truthy(a.description) || Truthy(a.content)
    ensures Truthy(a.description) ==> ToNewsItem(a).text == ToNewsItem(a).summary
  {
  }

  /** `data.articles?.map(...) || []`: a missing list gives no news. */
  function ToNewsItems(articles: Option<seq<Article>>): (r: seq<NewsItem>)
    ensures articles.None? ==> r == []
    ensures articles.Some? ==> |r| == |articles.value|
    ensures articles.Some? ==> forall k :: 0 <= k < |r| ==> r[k] == ToNewsItem(articles.value[k])
  {
    match articles
    case None => []
    case Some(list) => seq(|list|, k requires 0 <= k < |list| => ToNewsItem(list[k]))
  }

  /** Reshaping distributes over concatenation: no article is dropped, duplicated or moved. */
  lemma NewsItemsConcat(a: seq<Article>, b: seq<Article>)
    ensures ToNewsItems(Some(a + b)) == ToNewsItems(Some(a)) + ToNewsItems(Some(b))
  {
    var l := ToNewsItems(Some(a + b));
    var r := ToNewsItems(Some(a)) + ToNewsItems(Some(b));
    assert |l| == |r|;
    forall k | 0 <= k < |l| ensures l[k] == r[k] {
      if k < |a| {
        assert (a + b)[k] == a[k];
      } else {
        assert (a + b)[k] == b[k - |a|];
      }
    }
  }

  /** The upstream body as far as the route reads it: unreadable JSON (with the parser's message), or a JSON object. */
  datatype Body =
    | Unreadable(parseError: Option<string>)
    | Json(message: Option<string>, articles: Option<seq<Article>>)

  /** What the upstream request gives: a failure before any response (with its message), or a response. */
  datatype Upstream =
    | NetworkFailure(errorMessage: Option<string>)
    | Reply(ok: bool, status: nat, body: Body)

  datatype RouteBody = News(news: seq<NewsItem>) | Error(error: string)

  datatype RouteResponse = RouteResponse(status: nat, body: RouteBody)

  /** `error.message || "Internal server error"`. */
  function InternalError(message: Option<string>): (r: RouteResponse)
    ensures r.status == StatusInternalError && r.body.Error? && r.body.error != ""
    ensures Truthy(message) ==> r.body.error == message.value
  {
    RouteResponse(StatusInternalError, Error(if Truthy(message) then message.value else InternalErrorMessage))
  }

  /** The route's answer for a given upstream outcome. */
  function Get(up: Upstream): (r: RouteResponse)
    ensures r.body.News? <==> up.Reply? && up.ok && up.body.Json?
    ensures r.body.News? ==> r.status == StatusOk && r.body.news == ToNewsItems(up.body.articles)
    ensures up.Reply? && !up.ok && up.body.Json? ==>
      r.status == up.status && r.body == Error(if Truthy(up.body.message) then up.body.message.value else UpstreamErrorMessage)
    ensures up.NetworkFailure? ==> r == InternalError(up.errorMessage)
    ensures up.Reply? && up.body.Unreadable? ==> r == InternalError(up.body.parseError)
    ensures r.body.Error? ==> r.body.error != ""
  {
    match up
    case NetworkFailure(message) => InternalError(message)
    case Reply(ok, status, body) =>
      match body
      case Unreadable(parseError) => InternalError(parseError)
      case Json(message, articles) =>
        if !ok then RouteResponse(status, Error(if Truthy(message) then message.value else UpstreamErrorMessage))
        else RouteResponse(StatusOk, News(ToNewsItems(articles)))
  }

  /** An upstream error keeps its status: a client sees NewsAPI's own status, not a generic one. */
  lemma UpstreamStatusPassesThrough(status: nat, message: Option<string>, articles: Option<seq<Article>>)
    ensures Get(Reply(false, status, Json(message, articles))).status == status
    ensures Get(Reply(false, status, Json(message, articles))).body.Error?
  {
  }

  /** A readable ok answer always yields a news list, one record per upstream article, empty when `articles` is missing. */
  lemma OkGivesOneRecordPerArticle(status: nat, message: Option<string>, articles: Option<seq<Article>>)
    ensures var r := Get(Reply(true, status, Json(message, articles)));
      && r.status == StatusOk && r.body.News?
      && |r.body.news| == (if articles.Some? then |articles.value| else 0)
  {
  }
}
