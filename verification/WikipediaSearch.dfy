/**
 * The stand-alone encyclopedia helpers: a keyword search, the retrieval of
 * one article's extract, and their composition that fetches the top article
 * of a search.
 *
 * The query strings are built with `URLSearchParams`; they are modelled as
 * the ordered list of name/value pairs, before form encoding. `fetch` is a
 * function parameter from that list to what the request yields.
 */
module WikipediaSearch {
  import opened Js
  import opened Uri

  const WikiPrefix := "https://en.wikipedia.org/wiki/"
  const DefaultLimit := 5
  const DefaultMaxChars := 1000

  type Params = seq<(string, string)>

  datatype SearchResult = SearchResult(title: string, pageId: int, snippet: string, url: string)

  datatype Article = Article(title: string, extract: string, url: string, pageId: int)

  /** One entry of `query.search` as it arrives. */
  datatype SearchItem = SearchItem(title: string, pageid: int, snippet: Option<string>)

  /** The parsed search reply; `search` is absent when `query` is, or when `query.search` is not an array. */
  datatype SearchBody = SearchBody(search: Option<seq<SearchItem>>)

  /** One value of `query.pages`; `missing` says whether its `missing` flag is truthy. */
  datatype Page = Page(title: string, extract: Option<string>, fullurl: Option<string>, pageid: int, missing: bool)

  /** The parsed article reply: the values of `query.pages` in enumeration order, absent when `query.pages` is. */
  datatype ArticleBody = ArticleBody(pages: Option<seq<Page>>)

  /** What the composition returns: the results, and the top article when it could be fetched. */
  datatype Details = Details(searchResults: seq<SearchResult>, topArticle: Option<Article>)

  /** The value of the first parameter called `name`. */
  function Lookup(ps: Params, name: string): (v: Option<string>)
    ensures v.None? <==> forall i :: 0 <= i < |ps| ==> ps[i].0 != name
    ensures forall i :: 0 <= i < |ps| && ps[i].0 == name && (forall j :: 0 <= j < i ==> ps[j].0 != name) ==>
              v == Some(ps[i].1)
  {
    if |ps| == 0 then None
    else if ps[0].0 == name then Some(ps[0].1)
    else Lookup(ps[1..], name)
  }

  /** The article URL built from a title: spaces become '_', then the title is encoded. */
  function TitleUrl(title: string): (url: string)
    ensures StartsWith(url, WikiPrefix)
    ensures (forall i :: 0 <= i < |title| ==> IsUnreserved(title[i]) || title[i] == ' ') ==>
              url == WikiPrefix + UnderscoreSpaces(title)
  {
    var underscored := UnderscoreSpaces(title);
    assert (forall i :: 0 <= i < |title| ==> IsUnreserved(title[i]) || title[i] == ' ') ==>
             forall i :: 0 <= i < |underscored| ==> IsUnreserved(underscored[i]);
    WikiPrefix + EncodeURIComponent(underscored)
  }

  /** The query of a search request: the list search for `keyword`, limited to `limit` results. */
  function SearchParams(keyword: string, limit: int): (ps: Params)
    ensures Lookup(ps, "action") == Some("query") && Lookup(ps, "list") == Some("search")
    ensures Lookup(ps, "srsearch") == Some(keyword)
    ensures Lookup(ps, "srlimit") == Some(IntToString(limit))
  {
    var ps := [("action", "query"), ("list", "search"), ("srsearch", keyword),
               ("srlimit", IntToString(limit)), ("format", "json"), ("origin", "*")];
    assert ps[2] == ("srsearch", keyword) && ps[3] == ("srlimit", IntToString(limit));
    assert forall i :: 0 <= i < 3 ==> ps[i].0 != "srlimit";
    ps
  }

  /** The error `response.ok === false` is turned into. */
  function StatusError(status: int, statusText: string): Thrown {
    ErrorObject("Wikipedia API error: " + IntToString(status) + " " + statusText)
  }

  function ResultOf(item: SearchItem): SearchResult {
    SearchResult(item.title, item.pageid, OrDefault(item.snippet, ""), TitleUrl(item.title))
  }

  function ResultsOf(items: seq<SearchItem>): (rs: seq<SearchResult>)
    ensures |rs| == |items|
    ensures forall i :: 0 <= i < |items| ==> rs[i] == ResultOf(items[i])
  {
    if |items| == 0 then [] else [ResultOf(items[0])] + ResultsOf(items[1..])
  }

  /**
   * `searchWikipedia`: asks for `limit` results, 5 by default; an unexpected
   * reply gives no results; each item keeps its title and page id, gets an
   * empty snippet when it has none, and the URL of its title. Errors,
   * including a failed status, propagate.
   */
  function SearchWikipedia(keyword: string, limit: Option<int>, fetch: Params -> Fetched<SearchBody>)
    : (r: Result<seq<SearchResult>, Thrown>)
    ensures var f := fetch(SearchParams(keyword, limit.GetOr(DefaultLimit)));
      && (r.Ok? <==> f.OkBody?)
      && (f.FetchThrew? ==> r == Fail(f.thrown))
      && (f.NotOk? ==> r == Fail(StatusError(f.status, f.statusText)))
      && (r.Ok? && f.body.search.None? ==> r.value == [])
      && (r.Ok? && f.body.search.Some? ==>
            |r.value| == |f.body.search.value|
            && forall i :: 0 <= i < |r.value| ==>
                 var item := f.body.search.value[i];
                 && r.value[i].title == item.title && r.value[i].pageId == item.pageid
                 && (item.snippet.Some? && item.snippet.value != "" ==> r.value[i].snippet == item.snippet.value)
                 && (item.snippet.None? || item.snippet.value == "" ==> r.value[i].snippet == "")
                 && r.value[i].url == TitleUrl(item.title))
  {
    match fetch(SearchParams(keyword, limit.GetOr(DefaultLimit)))
    case FetchThrew(e) => Fail(e)
    case NotOk(status, statusText) => Fail(StatusError(status, statusText))
    case OkBody(body) => if body.search.Some? then Ok(ResultsOf(body.search.value)) else Ok([])
  }

  /** Leaving the limit out asks for five results. */
  lemma SearchDefaultsToFive(keyword: string, fetch: Params -> Fetched<SearchBody>)
    ensures SearchWikipedia(keyword, None, fetch) == SearchWikipedia(keyword, Some(5), fetch)
    ensures Lookup(SearchParams(keyword, DefaultLimit), "srlimit") == Some("5")
  {
    var ps := SearchParams(keyword, DefaultLimit);
    assert IntToString(5) == "5";
    assert ps[3] == ("srlimit", "5");
  }

  /** The article request: the intro, cut at `maxChars`, unless the full article is wanted. */
  function ArticleParams(title: string, fullArticle: bool, maxChars: int): (ps: Params)
    ensures Lookup(ps, "titles") == Some(title)
    ensures Lookup(ps, "exintro").Some? <==> !fullArticle
    ensures Lookup(ps, "exchars").Some? <==> !fullArticle
    ensures !fullArticle ==> Lookup(ps, "exchars") == Some(IntToString(maxChars))
  {
    var base := [("action", "query"), ("prop", "extracts|info"), ("explaintext", "true"),
                 ("titles", title), ("format", "json"), ("inprop", "url"), ("origin", "*")];
    var ps := if !fullArticle then base + [("exintro", "true"), ("exchars", IntToString(maxChars))] else base;
    assert ps[..7] == base && ps[3] == ("titles", title);
    assert forall i :: 0 <= i < 7 ==> ps[i].0 != "exintro" && ps[i].0 != "exchars";
    assert !fullArticle ==> ps[7] == ("exintro", "true") && ps[8] == ("exchars", IntToString(maxChars));
    ps
  }

  /**
   * `getWikipediaArticle`: no article when the reply has no pages, or the
   * first page is missing; otherwise the first page, with an empty extract
   * when it has none and the URL of the requested title when it has no
   * `fullurl`. Errors, including a failed status, propagate.
   */
  function GetWikipediaArticle(
    title: string, fullArticle: Option<bool>, maxChars: Option<int>, fetch: Params -> Fetched<ArticleBody>)
    : (r: Result<Option<Article>, Thrown>)
    ensures var f := fetch(ArticleParams(title, fullArticle.GetOr(false), maxChars.GetOr(DefaultMaxChars)));
      && (r.Ok? <==> f.OkBody?)
      && (f.FetchThrew? ==> r == Fail(f.thrown))
      && (f.NotOk? ==> r == Fail(StatusError(f.status, f.statusText)))
      && (r.Ok? ==> (r.value.None? <==>
            f.body.pages.None? || f.body.pages.value == [] || f.body.pages.value[0].missing))
      && (r.Ok? && r.value.Some? ==>
            var page := f.body.pages.value[0];
            && r.value.value.title == page.title && r.value.value.pageId == page.pageid
            && r.value.value.extract == OrDefault(page.extract, "")
            && r.value.value.url == OrDefault(page.fullurl, TitleUrl(title)))
  {
    match fetch(ArticleParams(title, fullArticle.GetOr(false), maxChars.GetOr(DefaultMaxChars)))
    case FetchThrew(e) => Fail(e)
    case NotOk(status, statusText) => Fail(StatusError(status, statusText))
    case OkBody(body) =>
      if body.pages.None? || body.pages.value == [] || body.pages.value[0].missing then Ok(None)
      else
        var page := body.pages.value[0];
        Ok(Some(Article(page.title, OrDefault(page.extract, ""), OrDefault(page.fullurl, TitleUrl(title)), page.pageid)))
  }

  /** Without options only the intro, up to 1000 characters, is asked for. */
  lemma ArticleDefaultsToIntro(title: string, fetch: Params -> Fetched<ArticleBody>)
    ensures GetWikipediaArticle(title, None, None, fetch) == GetWikipediaArticle(title, Some(false), Some(1000), fetch)
  {
  }

  /**
   * `searchWikipediaWithDetails`: a failing search fails; an empty one
   * returns no results and no article; otherwise the results come back with
   * the article of the first result's title when it could be fetched, and
   * without one when fetching it failed or found nothing.
   */
  function SearchWithDetails(
    keyword: string, limit: Option<int>, fullArticle: Option<bool>, maxChars: Option<int>,
    searchFetch: Params -> Fetched<SearchBody>, articleFetch: Params -> Fetched<ArticleBody>)
    : (r: Result<Details, Thrown>)
    ensures var s := SearchWikipedia(keyword, limit, searchFetch);
      && (s.Fail? ==> r == Fail(s.error))
      && (s.Ok? && s.value == [] ==> r == Ok(Details([], None)))
      && (s.Ok? && s.value != [] ==>
            var a := GetWikipediaArticle(s.value[0].title, fullArticle, maxChars, articleFetch);
            && r.Ok? && r.value.searchResults == s.value
            && (a.Ok? && a.value.Some? ==> r.value.topArticle == a.value)
            && (a.Fail? || a.value.None? ==> r.value.topArticle == None))
  {
    match SearchWikipedia(keyword, limit, searchFetch)
    case Fail(e) => Fail(e)
    case Ok(results) =>
      if results == [] then Ok(Details([], None))
      else
        var top := match GetWikipediaArticle(results[0].title, fullArticle, maxChars, articleFetch)
          case Ok(Some(article)) => Some(article)
          case _ => None;
        Ok(Details(results, top))
  }

  /** An empty search fetches no article: the article source cannot influence the outcome. */
  lemma EmptySearchFetchesNoArticle(
    keyword: string, limit: Option<int>, fullArticle: Option<bool>, maxChars: Option<int>,
    searchFetch: Params -> Fetched<SearchBody>, articleFetch1: Params -> Fetched<ArticleBody>,
    articleFetch2: Params -> Fetched<ArticleBody>)
    requires SearchWikipedia(keyword, limit, searchFetch) == Ok([])
    ensures SearchWithDetails(keyword, limit, fullArticle, maxChars, searchFetch, articleFetch1)
         == SearchWithDetails(keyword, limit, fullArticle, maxChars, searchFetch, articleFetch2)
         == Ok(Details([], None))
  {
  }

  /** A search that succeeds always returns its results, whatever happens to the article. */
  lemma ResultsSurviveArticleFailure(
    keyword: string, limit: Option<int>, fullArticle: Option<bool>, maxChars: Option<int>,
    searchFetch: Params -> Fetched<SearchBody>, articleFetch: Params -> Fetched<ArticleBody>)
    requires SearchWikipedia(keyword, limit, searchFetch).Ok?
    ensures SearchWithDetails(keyword, limit, fullArticle, maxChars, searchFetch, articleFetch).Ok?
    ensures SearchWithDetails(keyword, limit, fullArticle, maxChars, searchFetch, articleFetch).value.searchResults
         == SearchWikipedia(keyword, limit, searchFetch).value
  {
  }
}
