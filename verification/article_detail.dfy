/** The article page (src/pages/ArticleDetail.tsx). Its state is a `DetailView`
    whose handlers update the fields in sequence; the outcome of each remote call
    is an input. What the page shows is a pure function of the state, checked in
    the component's order: loading, load error, no article, rewriting, content. */
module ArticleDetail {
  import opened Text
  import Api
  import ArticleCard

  const LOAD_ERROR: string := "Unable to load this article. It may not exist or there was a connection issue."
  const NOT_LOADED: string := "Unable to load this article."
  const REWRITE_FALLBACK: string := "Failed to rewrite this article. Please try again."

  /** The remote calls the page makes, with the route's id. */
  datatype Call = FetchArticleById(id: string) | RewriteArticle(id: string)

  /** What the page shows. */
  datatype Screen =
    | LoadingScreen
    | LoadErrorScreen(message: string)
    | NotFoundScreen(message: string)
    | RewritingScreen
    | ContentScreen(
        article: Api.Article,
        sourceLink: Option<string>,      // "View Source", when the URL is non-empty
        rewriteButton: bool,             // original articles only
        rewriteBanner: Option<string>,   // the rewrite error above the button
        references: seq<string>)         // updated articles with references only

  /** The render cascade of the component. */
  function Render(loading: bool, error: Option<string>, article: Option<Api.Article>,
                  rewriting: bool, rewriteError: Option<string>): (s: Screen)
    ensures loading ==> s == LoadingScreen
    ensures !loading && article.None? ==> s.LoadErrorScreen? || s.NotFoundScreen?
    ensures !loading && article.Some? && rewriting ==> s == RewritingScreen
    ensures !loading && article.Some? && !rewriting ==> s.ContentScreen? && s.article == article.value
    ensures s.ContentScreen? ==>
      && (s.sourceLink.Some? <==> Api.Truthy(s.article.sourceUrl))
      && (s.sourceLink.Some? ==> s.sourceLink == s.article.sourceUrl)
      && (s.rewriteButton <==> s.article.kind == Api.ORIGINAL)
      && (s.rewriteBanner.Some? <==> s.rewriteButton && Api.Truthy(rewriteError))
      && (s.rewriteBanner.Some? ==> s.rewriteBanner == rewriteError)
      && (s.references != [] <==> s.article.kind == Api.UPDATED && s.article.references != [])
      && (s.references != [] ==> s.references == s.article.references)
  {
    if loading then LoadingScreen
    else if Api.Truthy(error) && article.None? then LoadErrorScreen(error.value)
    else if article.None? then NotFoundScreen(NOT_LOADED)
    else if rewriting then RewritingScreen
    else
      var a := article.value;
      var isOriginal := a.kind == Api.ORIGINAL;
      ContentScreen(
        a,
        if Api.Truthy(a.sourceUrl) then a.sourceUrl else None,
        isOriginal,
        if isOriginal && Api.Truthy(rewriteError) then rewriteError else None,
        if a.kind == Api.UPDATED && |a.references| > 0 then a.references else [])
  }

  /** A rewrite error never takes the article's place: once loaded and not
      rewriting, the page shows the article, with the error above the button. */
  lemma RewriteErrorShownOverContent(error: Option<string>, a: Api.Article, message: string)
    requires a.kind == Api.ORIGINAL && message != ""
    ensures var s := Render(false, error, Some(a), false, Some(message));
      s.ContentScreen? && s.article == a && s.rewriteButton && s.rewriteBanner == Some(message)
  {
  }

  /** A load error is shown on its own only when no article is held. */
  lemma LoadErrorNeedsNoArticle(loading: bool, error: Option<string>, article: Option<Api.Article>,
                                rewriting: bool, rewriteError: Option<string>)
    ensures Render(loading, error, article, rewriting, rewriteError).LoadErrorScreen? <==>
      !loading && Api.Truthy(error) && article.None?
  {
  }

  /** The state of the page for the route parameter `id`. */
  class DetailView {
    var id: Option<string>
    var article: Option<Api.Article>
    var loading: bool
    var error: Option<string>
    var rewriteError: Option<string>
    var rewriting: bool

    constructor(routeId: Option<string>)
      ensures id == routeId && article == None && loading && error == None
      ensures rewriteError == None && !rewriting
    {
      id, article, loading, error, rewriteError, rewriting := routeId, None, true, None, None, false;
    }

    function Screen(): Screen
      reads this
    {
      Render(loading, error, article, rewriting, rewriteError)
    }

    /** The effect on `id`: without an id nothing happens; otherwise fetch, keep the
        article or set the load error (keeping any article held), and stop loading. */
    method LoadArticle(reply: Api.Reply<Api.Article>) returns (calls: seq<Call>)
      modifies this
      ensures id == old(id) && rewriting == old(rewriting) && rewriteError == old(rewriteError)
      ensures !Api.Truthy(id) ==>
        calls == [] && article == old(article) && loading == old(loading) && error == old(error)
      ensures Api.Truthy(id) ==> calls == [FetchArticleById(id.value)] && !loading
      ensures Api.Truthy(id) && reply.Replied? ==> article == Some(reply.value) && error == None
      ensures Api.Truthy(id) && reply.Rejected? ==> article == old(article) && error == Some(LOAD_ERROR)
    {
      if !Api.Truthy(id) {
        return [];
      }
      loading := true;
      error := None;
      calls := [FetchArticleById(id.value)];
      match reply {
        case Replied(data) => article := Some(data);
        case Rejected(_) => error := Some(LOAD_ERROR);
      }
      loading := false;
    }

    /** `handleRewrite` as written: on success it navigates to the new article
        and leaves `rewriting` set. */
    method HandleRewriteAsWritten(reply: Api.Reply<Api.Article>) returns (calls: seq<Call>, navigateTo: Option<string>)
      modifies this
      ensures id == old(id) && article == old(article) && loading == old(loading) && error == old(error)
      ensures !Api.Truthy(id) || article.None? ==>
        calls == [] && navigateTo == None && rewriting == old(rewriting) && rewriteError == old(rewriteError)
      ensures Api.Truthy(id) && article.Some? && reply.Replied? ==>
        && calls == [RewriteArticle(id.value)] && navigateTo == Some(ArticleCard.ArticlePath(reply.value.id))
        && rewriting && rewriteError == None
      ensures Api.Truthy(id) && article.Some? && reply.Rejected? ==>
        && calls == [RewriteArticle(id.value)] && navigateTo == None && !rewriting
        && rewriteError == Some(Api.ErrorMessage(reply.error, REWRITE_FALLBACK))
    {
      if !Api.Truthy(id) || article.None? {
        return [], None;
      }
      rewriting := true;
      rewriteError := None;
      calls := [RewriteArticle(id.value)];
      match reply {
        case Replied(created) =>
          navigateTo := Some(ArticleCard.ArticlePath(created.id));
        case Rejected(err) =>
          navigateTo := None;
          rewriteError := Some(Api.ErrorMessage(err, REWRITE_FALLBACK));
          rewriting := false;
      }
    }

    /** `handleRewrite` as intended: as written, except that `rewriting` is
        cleared on success as well, so the page of the new article is not held
        behind the rewriting screen. */
    method HandleRewrite(reply: Api.Reply<Api.Article>) returns (calls: seq<Call>, navigateTo: Option<string>)
      modifies this
      ensures id == old(id) && article == old(article) && loading == old(loading) && error == old(error)
      ensures !Api.Truthy(id) || article.None? ==>
        calls == [] && navigateTo == None && rewriting == old(rewriting) && rewriteError == old(rewriteError)
      ensures Api.Truthy(id) && article.Some? ==> calls == [RewriteArticle(id.value)] && !rewriting
      ensures Api.Truthy(id) && article.Some? && reply.Replied? ==>
        navigateTo == Some(ArticleCard.ArticlePath(reply.value.id)) && rewriteError == None
      ensures Api.Truthy(id) && article.Some? && reply.Rejected? ==>
        navigateTo == None && rewriteError == Some(Api.ErrorMessage(reply.error, REWRITE_FALLBACK))
    {
      if !Api.Truthy(id) || article.None? {
        return [], None;
      }
      rewriting := true;
      rewriteError := None;
      calls := [RewriteArticle(id.value)];
      match reply {
        case Replied(created) =>
          navigateTo := Some(ArticleCard.ArticlePath(created.id));
        case Rejected(err) =>
          navigateTo := None;
          rewriteError := Some(Api.ErrorMessage(err, REWRITE_FALLBACK));
      }
      rewriting := false;
    }

    /** The close button of the rewrite error: clears that error and nothing else. */
    method DismissRewriteError()
      modifies this
      ensures rewriteError == None
      ensures id == old(id) && article == old(article) && loading == old(loading)
      ensures error == old(error) && rewriting == old(rewriting)
    {
      rewriteError := None;
    }

    /** Navigation to another article's path while this page stays mounted: only
        the route parameter changes. */
    method RouteChanged(newId: string)
      modifies this
      ensures id == Some(newId)
      ensures article == old(article) && loading == old(loading) && error == old(error)
      ensures rewriteError == old(rewriteError) && rewriting == old(rewriting)
    {
      id := Some(newId);
    }
  }

  /** Rewriting article 1 into article 2 with the handler as written, then following
      the navigation and loading article 2 into the same page, leaves the page on
      the rewriting screen. */
  method StaleRewritingScreen() returns (shown: Screen)
    ensures shown == RewritingScreen
  {
    var source := Api.Article(1, "Title", "Text", None, Api.ORIGINAL, []);
    var created := Api.Article(2, "Title (Updated)", "New text", None, Api.UPDATED, ["https://a.example"]);
    var view := new DetailView(Some("1"));
    var _ := view.LoadArticle(Api.Replied(source));
    var _, target := view.HandleRewriteAsWritten(Api.Replied(created));
    view.RouteChanged(IntToString(created.id));
    var _ := view.LoadArticle(Api.Replied(created));
    shown := view.Screen();
  }

  /** The same steps with the intended handler show the new article. */
  method NewArticleShown() returns (shown: Screen)
    ensures shown.ContentScreen? && shown.article.id == 2 && shown.references == ["https://a.example"]
  {
    var source := Api.Article(1, "Title", "Text", None, Api.ORIGINAL, []);
    var created := Api.Article(2, "Title (Updated)", "New text", None, Api.UPDATED, ["https://a.example"]);
    var view := new DetailView(Some("1"));
    var _ := view.LoadArticle(Api.Replied(source));
    var _, target := view.HandleRewrite(Api.Replied(created));
    view.RouteChanged(IntToString(created.id));
    var _ := view.LoadArticle(Api.Replied(created));
    shown := view.Screen();
  }
}
