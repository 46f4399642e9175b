/** Scraping the oldest blog articles (backend/services/scraper.py): collect the
    blog links of the index page, drop duplicates, keep the last `limit`, then
    fetch each kept page and emit it when it has a heading and paragraph text.
    Every page fetch is an input: `pages(url)` is what `requests.get(url)` gives. */
module Scraper {
  import opened Text
  import ContentFetcher
  import Api

  const BASE_URL: string := "https://beyondchats.com/blogs/"
  const DEFAULT_LIMIT: int := 5

  /** One scraped article, as the dictionary `scrape_oldest_articles` returns. */
  datatype ScrapedArticle = ScrapedArticle(title: string, content: string, sourceUrl: string, kind: string)

  /** `href.startswith("http") and "/blogs/" in href` */
  predicate IsBlogLink(href: string) {
    StartsWith(href, "http") && Contains(href, "/blogs/")
  }

  /** The blog links among `hrefs`, in document order. */
  function BlogLinks(hrefs: seq<string>): (r: seq<string>)
    ensures forall x :: x in r <==> x in hrefs && IsBlogLink(x)
  {
    if hrefs == [] then []
    else
      var last := hrefs[|hrefs| - 1];
      var prefix := BlogLinks(hrefs[..|hrefs| - 1]);
      assert forall x :: x in hrefs <==> x in hrefs[..|hrefs| - 1] || x == last;
      if IsBlogLink(last) then prefix + [last] else prefix
  }

  /** Blog links keep document order: those of an earlier part of the page come
      before those of a later part. */
  lemma {:induction false} BlogLinksInOrder(first: seq<string>, second: seq<string>)
    ensures BlogLinks(first + second) == BlogLinks(first) + BlogLinks(second)
    decreases |second|
  {
    if second == [] {
      assert first + second == first;
    } else {
      var both := first + second;
      assert both[..|both| - 1] == first + second[..|second| - 1];
      assert both[|both| - 1] == second[|second| - 1];
      BlogLinksInOrder(first, second[..|second| - 1]);
    }
  }

  /** Index of the first occurrence of `x`. */
  function FirstIndex<T(==)>(xs: seq<T>, x: T): (k: nat)
    requires x in xs
    ensures k < |xs| && xs[k] == x && x !in xs[..k]
  {
    if xs[0] == x then 0 else 1 + FirstIndex(xs[1..], x)
  }

  lemma {:induction false} FirstIndexPrefix<T>(xs: seq<T>, n: nat, x: T)
    requires n <= |xs| && x in xs[..n]
    ensures FirstIndex(xs, x) == FirstIndex(xs[..n], x)
  {
  }

  /** `list(dict.fromkeys(xs))`: duplicates dropped, first occurrences kept in order. */
  function Dedup(xs: seq<string>): (r: seq<string>)
    ensures forall x :: x in r <==> x in xs
    ensures forall i, j :: 0 <= i < j < |r| ==> r[i] != r[j]
  {
    if xs == [] then []
    else
      var last := xs[|xs| - 1];
      var prefix := Dedup(xs[..|xs| - 1]);
      assert forall x :: x in xs <==> x in xs[..|xs| - 1] || x == last;
      if last in prefix then prefix else prefix + [last]
  }

  /** The kept links appear in the order of their first occurrence. */
  lemma {:induction false} DedupKeepsFirstOrder(xs: seq<string>)
    ensures forall i, j :: 0 <= i < j < |Dedup(xs)| ==> FirstIndex(xs, Dedup(xs)[i]) < FirstIndex(xs, Dedup(xs)[j])
  {
    if xs != [] {
      var n := |xs| - 1;
      var last := xs[n];
      var prefix := Dedup(xs[..n]);
      DedupKeepsFirstOrder(xs[..n]);
      forall y | y in prefix
        ensures FirstIndex(xs, y) == FirstIndex(xs[..n], y) < n
      {
        FirstIndexPrefix(xs, n, y);
      }
      if last !in prefix {
        assert last !in xs[..n];
        assert FirstIndex(xs, last) == n;
        var d := Dedup(xs);
        assert d == prefix + [last];
        forall i, j | 0 <= i < j < |d|
          ensures FirstIndex(xs, d[i]) < FirstIndex(xs, d[j])
        {
          assert d[i] in prefix;
          if j < |prefix| { assert d[j] in prefix; }
        }
      }
    }
  }

  /** Python's `xs[k:]` for any integer `k`. */
  function SliceFrom<T>(xs: seq<T>, k: int): (r: seq<T>)
    ensures |r| <= |xs| && r == xs[|xs| - |r|..]
  {
    if k >= 0 then (if k <= |xs| then xs[k..] else [])
    else if -k <= |xs| then xs[|xs| + k..] else xs
  }

  /** `links[-limit:]`: the last `limit` links when `limit` is positive; all of
      them for `limit == 0`, because `-0` is `0`. */
  lemma KeepLast<T>(xs: seq<T>, limit: int)
    ensures limit >= 1 ==> |SliceFrom(xs, -limit)| == (if limit < |xs| then limit else |xs|)
    ensures limit == 0 ==> SliceFrom(xs, -limit) == xs
  {
  }

  /** The links `scrape_oldest_articles` visits, in visiting order. */
  function SelectedLinks(hrefs: seq<string>, limit: int): seq<string> {
    SliceFrom(Dedup(BlogLinks(hrefs)), -limit)
  }

  /** The selected links are distinct blog links, at most `limit` of them when `limit >= 1`. */
  lemma SelectedLinksShape(hrefs: seq<string>, limit: int)
    ensures var s := SelectedLinks(hrefs, limit);
      && (forall i :: 0 <= i < |s| ==> IsBlogLink(s[i]) && s[i] in hrefs)
      && (forall i, j :: 0 <= i < j < |s| ==> s[i] != s[j])
      && (limit >= 1 ==> |s| <= limit)
  {
  }

  /** The article a fetched page yields, if any. */
  function ArticleOf(url: string, page: ContentFetcher.Page): Option<ScrapedArticle> {
    var content := ContentFetcher.ParagraphText(page.paragraphs);
    if page.heading.Some? && content != "" then
      Some(ScrapedArticle(Strip(page.heading.value), content, url, Api.ORIGINAL))
    else None
  }

  /** A page yields an article exactly when it has an `<h1>` and non-empty
      paragraph text; the article is original, carries the page's URL, the
      stripped heading and that text. */
  lemma ArticleOfPage(url: string, page: ContentFetcher.Page)
    ensures var r := ArticleOf(url, page);
      && (r.Some? <==> page.heading.Some? && ContentFetcher.ParagraphText(page.paragraphs) != "")
      && (r.Some? ==>
            && r.value.sourceUrl == url && r.value.kind == Api.ORIGINAL
            && r.value.title == Strip(page.heading.value)
            && r.value.content == ContentFetcher.ParagraphText(page.paragraphs))
  {
  }

  function OptionList<T>(o: Option<T>): seq<T> {
    if o.Some? then [o.value] else []
  }

  /** `articles` in front of a harvest, unless the harvest failed. */
  function Prepend(articles: seq<ScrapedArticle>, rest: Result<seq<ScrapedArticle>, string>)
    : Result<seq<ScrapedArticle>, string>
  {
    if rest.Err? then rest else Ok(articles + rest.value)
  }

  lemma PrependTwice(a: seq<ScrapedArticle>, b: seq<ScrapedArticle>, rest: Result<seq<ScrapedArticle>, string>)
    ensures Prepend(a, Prepend(b, rest)) == Prepend(a + b, rest)
  {
    if rest.Ok? {
      assert a + (b + rest.value) == (a + b) + rest.value;
    }
  }

  /** The articles of `urls` in order, or the reason of the first unreachable page. */
  function Harvest(urls: seq<string>, pages: string -> ContentFetcher.Fetch): (r: Result<seq<ScrapedArticle>, string>)
    ensures r.Ok? ==> |r.value| <= |urls|
  {
    if urls == [] then Ok([])
    else
      var rest := Harvest(urls[1..], pages);
      match pages(urls[0])
      case Unreachable(reason) => Err(reason)
      case Fetched(page) =>
        if rest.Err? then rest
        else Ok(OptionList(ArticleOf(urls[0], page)) + rest.value)
  }

  /** Every harvested article is original, has content, and comes from one of the links. */
  lemma {:induction false} HarvestedArticles(urls: seq<string>, pages: string -> ContentFetcher.Fetch)
    ensures var r := Harvest(urls, pages);
      r.Ok? ==> forall i :: 0 <= i < |r.value| ==>
        r.value[i].kind == Api.ORIGINAL && r.value[i].content != "" && r.value[i].sourceUrl in urls
  {
    if urls != [] {
      HarvestedArticles(urls[1..], pages);
      var rest := Harvest(urls[1..], pages);
      if pages(urls[0]).Fetched? && rest.Ok? {
        ArticleOfPage(urls[0], pages(urls[0]).page);
        var here := OptionList(ArticleOf(urls[0], pages(urls[0]).page));
        var all := here + rest.value;
        assert Harvest(urls, pages) == Ok(all);
        forall i | 0 <= i < |all|
          ensures all[i].kind == Api.ORIGINAL && all[i].content != "" && all[i].sourceUrl in urls
        {
          if i < |here| {
            assert all[i] == here[i];
          } else {
            assert all[i] == rest.value[i - |here|];
            assert all[i].sourceUrl in urls[1..];
          }
        }
      }
    }
  }

  /** The first loop of `scrape_oldest_articles`: the blog links of the index page. */
  method CollectBlogLinks(hrefs: seq<string>) returns (links: seq<string>)
    ensures links == BlogLinks(hrefs)
  {
    links := [];
    var i := 0;
    while i < |hrefs|
      invariant 0 <= i <= |hrefs| && links == BlogLinks(hrefs[..i])
    {
      assert hrefs[..i + 1][..i] == hrefs[..i];
      if IsBlogLink(hrefs[i]) {
        links := links + [hrefs[i]];
      }
      i := i + 1;
    }
    assert hrefs[..|hrefs|] == hrefs;
  }

  /** What `scrape_oldest_articles(limit)` returns or raises, as a function of the fetches. */
  function ScrapeResult(limit: int, index: ContentFetcher.Fetch, pages: string -> ContentFetcher.Fetch)
    : (r: Result<seq<ScrapedArticle>, string>)
    ensures index.Unreachable? ==> r == Err(index.reason)
    ensures r.Ok? ==> forall i :: 0 <= i < |r.value| ==>
      && r.value[i].kind == Api.ORIGINAL && r.value[i].content != ""
      && r.value[i].sourceUrl in SelectedLinks(index.page.hrefs, limit)
  {
    match index
    case Unreachable(reason) => Err(reason)
    case Fetched(page) =>
      HarvestedArticles(SelectedLinks(page.hrefs, limit), pages);
      Harvest(SelectedLinks(page.hrefs, limit), pages)
  }

  /** The second loop of `scrape_oldest_articles`: each link is requested in
      turn; an unreachable page aborts the whole scrape. Returns the URLs requested. */
  method FetchArticles(links: seq<string>, pages: string -> ContentFetcher.Fetch)
    returns (r: Result<seq<ScrapedArticle>, string>, requested: seq<string>)
    ensures r == Harvest(links, pages)
    ensures |requested| <= |links| && requested == links[..|requested|]
    ensures r.Ok? ==> requested == links
  {
    var articles: seq<ScrapedArticle> := [];
    requested := [];
    var todo := links;
    PrependNothing(Harvest(links, pages));
    while todo != []
      invariant links == requested + todo
      invariant |requested| <= |links| && requested == links[..|requested|]
      invariant Harvest(links, pages) == Prepend(articles, Harvest(todo, pages))
    {
      var url := todo[0];
      assert links == (requested + [url]) + todo[1..];
      requested := requested + [url];
      FetchStep(articles, todo, pages);
      match pages(url) {
        case Unreachable(reason) =>
          return Err(reason), requested;
        case Fetched(page) =>
          var found := ArticleOf(url, page);
          if found.Some? {
            articles := articles + [found.value];
          }
      }
      todo := todo[1..];
    }
    assert requested + [] == requested && articles + [] == articles;
    r := Ok(articles);
  }

  lemma PrependNothing(rest: Result<seq<ScrapedArticle>, string>)
    ensures Prepend([], rest) == rest
  {
    if rest.Ok? {
      assert [] + rest.value == rest.value;
    }
  }

  /** One link of the fetch loop: an unreachable page ends the harvest with its
      reason; a fetched one moves its article, if any, to the collected ones. */
  lemma FetchStep(articles: seq<ScrapedArticle>, todo: seq<string>, pages: string -> ContentFetcher.Fetch)
    requires todo != []
    ensures pages(todo[0]).Unreachable? ==> Prepend(articles, Harvest(todo, pages)) == Err(pages(todo[0]).reason)
    ensures pages(todo[0]).Fetched? ==>
      var found := ArticleOf(todo[0], pages(todo[0]).page);
      Prepend(articles, Harvest(todo, pages)) ==
        Prepend(if found.Some? then articles + [found.value] else articles, Harvest(todo[1..], pages))
  {
    if pages(todo[0]).Fetched? {
      var found := ArticleOf(todo[0], pages(todo[0]).page);
      PrependTwice(articles, OptionList(found), Harvest(todo[1..], pages));
      assert articles + OptionList(found) == if found.Some? then articles + [found.value] else articles;
    }
  }

  /** `scrape_oldest_articles(limit)`: the articles, or the reason of the
      exception that aborted the scrape; and the URLs requested, in order. */
  method ScrapeOldestArticles(limit: int, index: ContentFetcher.Fetch, pages: string -> ContentFetcher.Fetch)
    returns (r: Result<seq<ScrapedArticle>, string>, requested: seq<string>)
    ensures r == ScrapeResult(limit, index, pages)
    ensures |requested| >= 1 && requested[0] == BASE_URL
    ensures index.Unreachable? ==> requested == [BASE_URL]
    ensures index.Fetched? ==>
      && |requested| - 1 <= |SelectedLinks(index.page.hrefs, limit)|
      && requested[1..] == SelectedLinks(index.page.hrefs, limit)[..|requested| - 1]
    ensures index.Fetched? && r.Ok? ==> requested[1..] == SelectedLinks(index.page.hrefs, limit)
  {
    if index.Unreachable? {
      return Err(index.reason), [BASE_URL];
    }
    var links := CollectBlogLinks(index.page.hrefs);
    links := SliceFrom(Dedup(links), -limit);
    var fetched;
    r, fetched := FetchArticles(links, pages);
    requested := [BASE_URL] + fetched;
    assert requested[1..] == fetched;
  }
}
