/** The rewrite route (backend/routes/rewrite.py): choose two reference texts,
    from the web search or from two other original articles of the store,
    check their length, have the language model rewrite the article and store
    the result as a new `updated` article. Search, page fetches and chat calls
    are inputs, as in the modules that model them. */
module RewriteRoute {
  import opened Text
  import Api
  import Models
  import ContentFetcher
  import GoogleSearch
  import LlmRewriter
  import opened ArticlesRoutes

  const UPDATED_SUFFIX: string := " (Updated)"
  /** A reference text is refused when its stripped length is below this. */
  const MIN_REFERENCE: nat := 50
  const SEARCH_REQUIRED: string := "Google Search is required but failed. "
  const NO_KEY_HINT: string := "SERPER_API_KEY is not set. Please set it in environment variables."
  const CONFIG_HINT: string :=
    "Please check your Google Search API configuration or ensure you have at least 2 articles in the database."
  const REWRITE_FAILED: string := "Failed to rewrite article: "
  /** `str(NotFound())` in Werkzeug. */
  const NOT_FOUND_TEXT: string :=
    "404 Not Found: The requested URL was not found on the server. If you entered the URL manually please check your spelling and try again."

  /** The two reference texts and the links recorded as the new article's references. */
  datatype Plan = Plan(ref1: string, ref2: string, links: seq<string>)

  /** `get_or_404` as it behaves inside the route's `try`: the NotFound it raises
      is caught by `except Exception` and answered with 500. */
  function FindArticleAsWritten(rows: seq<Models.Row>, id: int): (r: Result<Models.Row, Response>)
    ensures r.Ok? <==> exists i :: 0 <= i < |rows| && rows[i].id == id
    ensures r.Ok? ==> r.value in rows && r.value.id == id
    ensures r.Err? ==> r.error == Response(500, ErrorBody(REWRITE_FAILED + NOT_FOUND_TEXT, None))
  {
    var k := IndexOf(rows, id);
    if k.Some? then Ok(rows[k.value])
    else Err(Response(500, ErrorBody(REWRITE_FAILED + NOT_FOUND_TEXT, None)))
  }

  /** The lookup as intended: an unknown id is answered with 404, as in `GET /api/articles/<id>`. */
  function FindArticle(rows: seq<Models.Row>, id: int): (r: Result<Models.Row, Response>)
    ensures r.Ok? <==> exists i :: 0 <= i < |rows| && rows[i].id == id
    ensures r.Ok? ==> r.value in rows && r.value.id == id
    ensures r.Err? ==> r.error == Response(404, DefaultErrorPage)
  {
    var k := IndexOf(rows, id);
    if k.Some? then Ok(rows[k.value]) else Err(Response(404, DefaultErrorPage))
  }

  /** For an unknown id the route as written answers 500, where 404 is meant. */
  lemma UnknownIdIsServerError(rows: seq<Models.Row>, id: int)
    requires forall i :: 0 <= i < |rows| ==> rows[i].id != id
    ensures FindArticleAsWritten(rows, id).Err? && FindArticleAsWritten(rows, id).error.status == 500
    ensures FindArticle(rows, id).Err? && FindArticle(rows, id).error.status == 404
  {
  }

  /** `Article.query.filter(Article.id != id, Article.type == "original")`, in store order. */
  function OtherOriginals(rows: seq<Models.Row>, id: int): (r: seq<Models.Row>)
    ensures forall i :: 0 <= i < |r| ==> r[i] in rows && r[i].id != id && r[i].kind == Api.ORIGINAL
    ensures ValidRows(rows) ==> ValidRows(r)
  {
    if rows == [] then []
    else
      var rest := OtherOriginals(rows[1..], id);
      if rows[0].id != id && rows[0].kind == Api.ORIGINAL then [rows[0]] + rest else rest
  }

  /** The query misses none of them: every stored original with another id is
      among `OtherOriginals`. */
  lemma {:induction false} OtherOriginalsComplete(rows: seq<Models.Row>, id: int)
    ensures forall x :: x in rows && x.id != id && x.kind == Api.ORIGINAL ==> x in OtherOriginals(rows, id)
  {
    if rows != [] {
      OtherOriginalsComplete(rows[1..], id);
      assert forall x :: x in rows ==> x == rows[0] || x in rows[1..];
    }
  }

  /** `other.source_url or f"Article: {other.title}"`: an empty URL counts as absent. */
  function SourceLink(row: Models.Row): (r: string)
    ensures r != ""
  {
    if row.sourceUrl.Some? && row.sourceUrl.value != "" then row.sourceUrl.value
    else "Article: " + row.title
  }

  /** The database fallback: the first two other original articles, when there are two. */
  function FallbackPlan(rows: seq<Models.Row>, id: int): (r: Option<Plan>)
    requires ValidRows(rows)
    ensures r.Some? ==> |r.value.links| == 2 && r.value.links[0] != "" && r.value.links[1] != ""
  {
    var o := OtherOriginals(rows, id);
    if |o| >= 2 then Some(Plan(o[0].content, o[1].content, [SourceLink(o[0]), SourceLink(o[1])]))
    else None
  }

  /** A fallback exists exactly when the store holds two other originals (two
      stored originals with distinct ids other than `id`); it takes the first two,
      in id order, with their contents and source links. */
  lemma FallbackPlanShape(rows: seq<Models.Row>, id: int)
    requires ValidRows(rows)
    ensures var p := FallbackPlan(rows, id);
      && (p.Some? <==> |OtherOriginals(rows, id)| >= 2)
      && (p.Some? ==> var o := OtherOriginals(rows, id);
            && o[0] in rows && o[1] in rows && o[0].id < o[1].id
            && o[0].id != id && o[1].id != id && o[0].kind == Api.ORIGINAL && o[1].kind == Api.ORIGINAL
            && p.value.ref1 == o[0].content && p.value.ref2 == o[1].content
            && p.value.links == [SourceLink(o[0]), SourceLink(o[1])])
    ensures var p := FallbackPlan(rows, id);
      && (p.None? ==> forall x, y ::
            x in rows && y in rows && x.id != id && y.id != id && x.kind == Api.ORIGINAL && y.kind == Api.ORIGINAL
            ==> x.id == y.id)
      && (p.Some? ==> var o := OtherOriginals(rows, id);
            forall x :: x in rows && x.id != id && x.kind == Api.ORIGINAL && x != o[0] ==> o[1].id <= x.id)
  {
    var o := OtherOriginals(rows, id);
    OtherOriginalsComplete(rows, id);
    if |o| >= 2 {
      forall x | x in rows && x.id != id && x.kind == Api.ORIGINAL && x != o[0]
        ensures o[1].id <= x.id
      {
        var k :| 0 <= k < |o| && o[k] == x;
        assert k != 0;
      }
    } else {
      forall x, y | x in rows && y in rows && x.id != id && y.id != id
                    && x.kind == Api.ORIGINAL && y.kind == Api.ORIGINAL
        ensures x.id == y.id
      {
        assert x in o && y in o;
        var a :| 0 <= a < |o| && o[a] == x;
        var b :| 0 <= b < |o| && o[b] == y;
      }
    }
  }

  /** The 400 when neither the search nor the store gives two references. */
  function SearchFailed(serperKeySet: bool): (r: Response)
    ensures r.status == 400
  {
    Response(400, ErrorBody(SEARCH_REQUIRED + (if serperKeySet then CONFIG_HINT else NO_KEY_HINT), None))
  }

  /** The 400 when the search gives `n` links, fewer than two, and the store no fallback. */
  function TooFewLinks(n: nat): (r: Response)
    ensures r.status == 400
  {
    Response(400, ErrorBody(TooFewLinksMessage(n), Some(n)))
  }

  function TooFewLinksMessage(n: nat): string {
    "Insufficient reference articles found from Google Search. Found " + IntToString(n)
    + " links, need at least 2. Please check your Google Search API configuration."
  }

  function FetchFailed(n: int, reason: string): (r: Response)
    ensures r.status == 500
  {
    Response(500, ErrorBody("Failed to fetch content from reference article " + IntToString(n) + ": " + reason, None))
  }

  /** The store fallback as a result: its plan, or `otherwise` when the store
      has no two other original articles. */
  function FromStore(rows: seq<Models.Row>, id: int, otherwise: Response): (r: Result<Plan, Response>)
    requires ValidRows(rows)
    ensures r.Err? ==> r.error == otherwise
    ensures r.Ok? ==> |r.value.links| == 2
  {
    var fallback := FallbackPlan(rows, id);
    if fallback.Some? then Ok(fallback.value) else Err(otherwise)
  }

  /** The fetch of the first two search links, in order; the links themselves
      become the references. */
  function FetchPlan(links: seq<string>, pages: string -> ContentFetcher.Fetch): (r: Result<Plan, Response>)
    requires |links| >= 2
    ensures r.Ok? <==> pages(links[0]).Fetched? && pages(links[1]).Fetched?
    ensures r.Ok? ==> r.value.links == links
    ensures r.Err? ==> r.error.status == 500
  {
    match ContentFetcher.FetchArticleContent(pages(links[0]))
    case Err(reason) => Err(FetchFailed(1, reason))
    case Ok(ref1) =>
      match ContentFetcher.FetchArticleContent(pages(links[1]))
      case Err(reason) => Err(FetchFailed(2, reason))
      case Ok(ref2) => Ok(Plan(ref1, ref2, links))
  }

  /** The reference-sourcing branches of the route: a failed or empty search and a
      single search link fall back to the store; two links are fetched. */
  function PlanReferences(rows: seq<Models.Row>, id: int, serperKeySet: bool,
                          search: Result<seq<string>, GoogleSearch.SearchError>,
                          pages: string -> ContentFetcher.Fetch): (r: Result<Plan, Response>)
    requires ValidRows(rows)
    ensures r.Ok? ==> |r.value.links| >= 2
    ensures r.Err? ==> r.error.status == (if search.Ok? && |search.value| >= 2 then 500 else 400)
  {
    var links := if search.Ok? then search.value else [];
    if links == [] then FromStore(rows, id, SearchFailed(serperKeySet))
    else if |links| < 2 then FromStore(rows, id, TooFewLinks(|links|))
    else FetchPlan(links, pages)
  }

  /** The store fallback gives the first two other originals when there are two,
      and the given error response otherwise. */
  lemma FromStoreCases(rows: seq<Models.Row>, id: int, otherwise: Response)
    requires ValidRows(rows)
    ensures var r := FromStore(rows, id, otherwise);
      && (r.Ok? <==> |OtherOriginals(rows, id)| >= 2)
      && (r.Ok? ==> r.value == FallbackPlan(rows, id).value)
      && (r.Err? ==> r.error == otherwise)
  {
    FallbackPlanShape(rows, id);
  }

  /** A failed search, or one with no link, takes the references from the store;
      without two other originals the answer is 400, naming the missing key when
      the key is not set. */
  lemma SearchFailureUsesStore(rows: seq<Models.Row>, id: int, serperKeySet: bool,
                               search: Result<seq<string>, GoogleSearch.SearchError>,
                               pages: string -> ContentFetcher.Fetch)
    requires ValidRows(rows) && (search.Err? || search.value == [])
    ensures PlanReferences(rows, id, serperKeySet, search, pages) == FromStore(rows, id, SearchFailed(serperKeySet))
    ensures SearchFailed(serperKeySet).status == 400
    ensures SearchFailed(false).body.error == SEARCH_REQUIRED + NO_KEY_HINT
  {
  }

  /** A single search link also takes the references from the store; without two
      other originals the answer is 400 with `links_found` 1. */
  lemma SingleLinkUsesStore(rows: seq<Models.Row>, id: int, serperKeySet: bool,
                            search: Result<seq<string>, GoogleSearch.SearchError>,
                            pages: string -> ContentFetcher.Fetch)
    requires ValidRows(rows) && search.Ok? && |search.value| == 1
    ensures PlanReferences(rows, id, serperKeySet, search, pages) == FromStore(rows, id, TooFewLinks(1))
    ensures TooFewLinks(1).status == 400 && TooFewLinks(1).body.linksFound == Some(1)
  {
  }

  /** Two or more search links: the first two pages are fetched and nothing else;
      a failed fetch is a 500 naming the reference, otherwise the references are
      the two pages' paragraph texts and the links are the search links. */
  lemma TwoLinksFetched(rows: seq<Models.Row>, id: int, serperKeySet: bool,
                        search: Result<seq<string>, GoogleSearch.SearchError>,
                        pages: string -> ContentFetcher.Fetch)
    requires ValidRows(rows) && search.Ok? && |search.value| >= 2
    ensures var r := PlanReferences(rows, id, serperKeySet, search, pages);
      var f1, f2 := pages(search.value[0]), pages(search.value[1]);
      && (f1.Unreachable? ==> r == Err(FetchFailed(1, f1.reason)) && r.error.status == 500)
      && (f1.Fetched? && f2.Unreachable? ==> r == Err(FetchFailed(2, f2.reason)) && r.error.status == 500)
      && (f1.Fetched? && f2.Fetched? ==>
            r == Ok(Plan(ContentFetcher.ParagraphText(f1.page.paragraphs),
                         ContentFetcher.ParagraphText(f2.page.paragraphs), search.value)))
  {
  }

  /** `not ref or len(ref.strip()) < 50` */
  predicate Insufficient(ref: string): (b: bool)
    ensures b <==> |Strip(ref)| < MIN_REFERENCE
  {
    ref == "" || |Strip(ref)| < MIN_REFERENCE
  }

  /** A fetched reference is refused exactly when the page has no paragraph of more
      than 50 characters: a non-empty paragraph text always passes the check. */
  lemma FetchedReferenceSufficiency(paragraphs: seq<string>)
    ensures Insufficient(ContentFetcher.ParagraphText(paragraphs))
      <==> forall p :: p in paragraphs ==> !ContentFetcher.Qualifies(p)
  {
    ContentFetcher.EmptyIffNoneQualifies(paragraphs);
    if ContentFetcher.ParagraphText(paragraphs) != "" {
      ContentFetcher.NonEmptyTextIsLong(paragraphs);
    }
  }

  /** The article the route stores: the original's title with " (Updated)", the
      rewritten content, type "updated", the links joined by commas, no source URL. */
  function UpdatedRow(id: int, source: Models.Row, content: string, links: seq<string>): (r: Models.Row)
    ensures r.id == id && r.content == content && r.sourceUrl.None?
    ensures r.title == source.title + UPDATED_SUFFIX && r.kind == Api.UPDATED
    ensures r.references == Some(Join(links, ","))
  {
    Models.NewRow(id, source.title + UPDATED_SUFFIX, content, None, Some(Api.UPDATED), Some(Join(links, ",")))
  }

  /** The stored references read back as the links used, when no link holds a comma
      and the list is not the single empty link. */
  lemma UpdatedReferencesReadBack(id: int, source: Models.Row, content: string, links: seq<string>)
    requires |links| >= 1 && links != [""]
    requires forall i :: 0 <= i < |links| ==> ',' !in links[i]
    ensures Models.ToDict(UpdatedRow(id, source, content, links)).references == links
    ensures Models.ToDict(UpdatedRow(id, source, content, links)).kind == Api.UPDATED
  {
    Models.ReferencesRoundTrip(links);
  }

  function InsufficientResponse(n: int): Response {
    Response(500, ErrorBody("Reference article " + IntToString(n) + " did not provide sufficient content", None))
  }

  /** The reference-sourcing part of the route, once the article is found: the
      search, the store fallback and the fetch of the first two search links.
      Also returns the URLs fetched. */
  method GatherReferences(rows: seq<Models.Row>, articleId: int,
                          serperKeySet: bool, searchReply: GoogleSearch.SearchReply,
                          pages: string -> ContentFetcher.Fetch)
    returns (plan: Result<Plan, Response>, fetched: seq<string>)
    requires ValidRows(rows)
    ensures plan == PlanReferences(rows, articleId, serperKeySet, GoogleSearch.SearchResult(serperKeySet, searchReply), pages)
    ensures |fetched| <= 2
    ensures fetched != [] ==> var search := GoogleSearch.SearchResult(serperKeySet, searchReply);
      search.Ok? && |search.value| >= 2 && fetched == search.value[..|fetched|]
    ensures var search := GoogleSearch.SearchResult(serperKeySet, searchReply);
      && (fetched != [] <==> search.Ok? && |search.value| >= 2)
      && (|fetched| == 2 <==> search.Ok? && |search.value| >= 2 && pages(search.value[0]).Fetched?)
  {
    fetched := [];
    var ref1, ref2 := "", "";
    var links: seq<string> := [];

    var search, _ := GoogleSearch.Search(serperKeySet, searchReply);
    var searchLinks := if search.Ok? then search.value else [];
    if searchLinks == [] {
      var fallback := FallbackPlan(rows, articleId);
      if fallback.None? {
        plan := Err(SearchFailed(serperKeySet));
        return;
      }
      ref1, ref2, links := fallback.value.ref1, fallback.value.ref2, fallback.value.links;
    }

    if searchLinks != [] && ref1 == "" && ref2 == "" {
      if |searchLinks| < 2 {
        var fallback := FallbackPlan(rows, articleId);
        if fallback.None? {
          plan := Err(TooFewLinks(|searchLinks|));
          return;
        }
        ref1, ref2, links := fallback.value.ref1, fallback.value.ref2, fallback.value.links;
      } else {
        var fetchedPlan;
        fetchedPlan, fetched := FetchReferences(searchLinks, pages);
        if fetchedPlan.Err? {
          return fetchedPlan, fetched;
        }
        ref1, ref2, links := fetchedPlan.value.ref1, fetchedPlan.value.ref2, fetchedPlan.value.links;
      }
    }
    plan := Ok(Plan(ref1, ref2, links));
  }

  /** The two reference fetches of the route, in order, stopping at the first
      failure. Also returns the URLs requested. */
  method FetchReferences(links: seq<string>, pages: string -> ContentFetcher.Fetch)
    returns (plan: Result<Plan, Response>, fetched: seq<string>)
    requires |links| >= 2
    ensures plan == FetchPlan(links, pages)
    ensures 1 <= |fetched| <= 2 && fetched == links[..|fetched|]
    ensures |fetched| == 2 <==> pages(links[0]).Fetched?
  {
    fetched := [links[0]];
    var content1 := ContentFetcher.FetchArticleContent(pages(links[0]));
    if content1.Err? {
      return Err(FetchFailed(1, content1.error)), fetched;
    }
    fetched := fetched + [links[1]];
    var content2 := ContentFetcher.FetchArticleContent(pages(links[1]));
    if content2.Err? {
      return Err(FetchFailed(2, content2.error)), fetched;
    }
    plan := Ok(Plan(content1.value, content2.value, links));
  }

  /** `POST /api/rewrite/<id>`, with the intended 404 for an unknown id. Returns
      the response, the URLs fetched as references and the models called. */
  method Rewrite(store: ArticleStore, articleId: int,
                 serperKeySet: bool, searchReply: GoogleSearch.SearchReply,
                 pages: string -> ContentFetcher.Fetch,
                 cohereKeySet: bool, chat: string -> LlmRewriter.ChatReply)
    returns (resp: Response, fetched: seq<string>, tried: seq<string>)
    requires store.Valid()
    modifies store
    ensures store.Valid()
    ensures FindArticle(old(store.rows), articleId).Err? ==>
      && resp == Response(404, DefaultErrorPage) && store.rows == old(store.rows)
      && fetched == [] && tried == []
    ensures FindArticle(old(store.rows), articleId).Ok? ==>
      var article := FindArticle(old(store.rows), articleId).value;
      var search := GoogleSearch.SearchResult(serperKeySet, searchReply);
      var plan := PlanReferences(old(store.rows), articleId, serperKeySet, search, pages);
      && (plan.Err? ==> resp == plan.error && store.rows == old(store.rows) && tried == [])
      && (plan.Ok? && Insufficient(plan.value.ref1) ==>
            resp == InsufficientResponse(1) && store.rows == old(store.rows) && tried == [])
      && (plan.Ok? && !Insufficient(plan.value.ref1) && Insufficient(plan.value.ref2) ==>
            resp == InsufficientResponse(2) && store.rows == old(store.rows) && tried == [])
      && (plan.Ok? && !Insufficient(plan.value.ref1) && !Insufficient(plan.value.ref2) ==>
            var llm := LlmRewriter.RewriteResult(cohereKeySet, chat);
            && (tried != [] <==> cohereKeySet)
            && |tried| <= |LlmRewriter.MODELS| && tried == LlmRewriter.MODELS[..|tried|]
            && (llm.Err? ==> resp == Response(500, ErrorBody(REWRITE_FAILED + llm.error, None))
                             && store.rows == old(store.rows))
            && (llm.Ok? ==>
                  var row := UpdatedRow(FreshId(old(store.rows)), article, llm.value, plan.value.links);
                  store.rows == old(store.rows) + [row] && resp == Response(200, One(Models.ToDict(row)))))
    ensures |fetched| <= 2
    ensures fetched != [] ==> var search := GoogleSearch.SearchResult(serperKeySet, searchReply);
      search.Ok? && |search.value| >= 2 && fetched == search.value[..|fetched|]
    ensures FindArticle(old(store.rows), articleId).Ok? ==>
      var search := GoogleSearch.SearchResult(serperKeySet, searchReply);
      && (fetched != [] <==> search.Ok? && |search.value| >= 2)
      && (|fetched| == 2 <==> search.Ok? && |search.value| >= 2 && pages(search.value[0]).Fetched?)
  {
    var rows := store.rows;
    tried := [];
    var found := FindArticle(rows, articleId);
    if found.Err? {
      return found.error, [], tried;
    }
    var article := found.value;
    var plan;
    plan, fetched := GatherReferences(rows, articleId, serperKeySet, searchReply, pages);
    if plan.Err? {
      return plan.error, fetched, tried;
    }
    if Insufficient(plan.value.ref1) {
      return InsufficientResponse(1), fetched, tried;
    }
    if Insufficient(plan.value.ref2) {
      return InsufficientResponse(2), fetched, tried;
    }

    var rewritten;
    rewritten, tried := LlmRewriter.RewriteArticle(cohereKeySet, chat);
    if rewritten.Err? {
      return Response(500, ErrorBody(REWRITE_FAILED + rewritten.error, None)), fetched, tried;
    }

    var row := UpdatedRow(FreshId(rows), article, rewritten.value, plan.value.links);
    AppendFresh(rows, row);
    store.rows := rows + [row];
    resp := Response(200, One(Models.ToDict(row)));
  }
}
