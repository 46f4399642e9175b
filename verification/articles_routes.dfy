/** The article store and its routes (backend/routes/articles.py). The `article`
    table is the field `rows` of an `ArticleStore`, in id order, which is the
    order `Article.query.all()` yields. The store is updated in place by the
    routes that add or delete rows. */
module ArticlesRoutes {
  import opened Text
  import Api
  import Models
  import ContentFetcher
  import Scraper

  /** A JSON response body, or the page Flask renders for an aborted request. */
  datatype Body =
    | Message(text: string)
    | ErrorBody(error: string, linksFound: Option<int>)
    | One(article: Api.Article)
    | Many(articles: seq<Api.Article>)
    | DefaultErrorPage  // the HTML page of `abort(404)` or of an unhandled exception

  datatype Response = Response(status: int, body: Body)

  /** The JSON body of `POST /api/articles/`: each column is a string, or None
      when the key is absent or its value is JSON `null`. The ORM treats the two
      alike: it stores NULL for a nullable column, fails NOT NULL for `title`
      and `content`, and leaves a None `type` out of the INSERT so its default
      applies. */
  datatype NewArticle = NewArticle(
    title: Option<string>,
    content: Option<string>,
    sourceUrl: Option<string>,
    kind: Option<string>,
    references: Option<string>)

  /** Ids are positive and strictly ascending. */
  predicate ValidRows(rows: seq<Models.Row>) {
    && (forall i :: 0 <= i < |rows| ==> rows[i].id > 0)
    && (forall i, j :: 0 <= i < j < |rows| ==> rows[i].id < rows[j].id)
  }

  /** The id SQLite gives the next inserted row: one more than the largest, or 1. */
  function FreshId(rows: seq<Models.Row>): (id: int)
    requires ValidRows(rows)
    ensures id > 0 && forall i :: 0 <= i < |rows| ==> rows[i].id < id
  {
    if rows == [] then 1 else rows[|rows| - 1].id + 1
  }

  /** Appending a row with the fresh id keeps the ids valid. */
  lemma AppendFresh(rows: seq<Models.Row>, r: Models.Row)
    requires ValidRows(rows) && r.id == FreshId(rows)
    ensures ValidRows(rows + [r])
  {
  }

  /** The position of the row with this id, if any. */
  function IndexOf(rows: seq<Models.Row>, id: int): (k: Option<nat>)
    ensures k.Some? ==> k.value < |rows| && rows[k.value].id == id
    ensures k.None? ==> forall i :: 0 <= i < |rows| ==> rows[i].id != id
  {
    if rows == [] then None
    else if rows[0].id == id then Some(0)
    else
      var k := IndexOf(rows[1..], id);
      if k.Some? then Some(k.value + 1) else None
  }

  /** Whether a stored row has this `source_url`. */
  predicate Known(rows: seq<Models.Row>, url: string) {
    exists i :: 0 <= i < |rows| && rows[i].sourceUrl == Some(url)
  }

  /** The row the scrape route adds for a scraped article. */
  function ScrapedRow(id: int, a: Scraper.ScrapedArticle): (r: Models.Row)
    ensures r.id == id && r.sourceUrl == Some(a.sourceUrl) && r.kind == a.kind
    ensures r.title == a.title && r.content == a.content && r.references.None?
  {
    Models.NewRow(id, a.title, a.content, Some(a.sourceUrl), Some(a.kind), None)
  }

  /** Reference definition of the scrape insert loop: each article is added
      unless a row, including one added earlier in the loop, has its URL. */
  function AfterScrape(rows: seq<Models.Row>, items: seq<Scraper.ScrapedArticle>): (r: seq<Models.Row>)
    requires ValidRows(rows)
    ensures ValidRows(r) && |rows| <= |r| && r[..|rows|] == rows
    decreases |items|
  {
    if items == [] then rows
    else if Known(rows, items[0].sourceUrl) then AfterScrape(rows, items[1..])
    else
      var row := ScrapedRow(FreshId(rows), items[0]);
      AppendFresh(rows, row);
      var r := AfterScrape(rows + [row], items[1..]);
      assert r[..|rows|] == r[..|rows| + 1][..|rows|];
      r
  }

  /** After a scrape, every scraped URL is stored. */
  lemma {:induction false} ScrapeStoresEveryUrl(rows: seq<Models.Row>, items: seq<Scraper.ScrapedArticle>)
    requires ValidRows(rows)
    ensures forall i :: 0 <= i < |items| ==> Known(AfterScrape(rows, items), items[i].sourceUrl)
    ensures forall u :: Known(rows, u) ==> Known(AfterScrape(rows, items), u)
    decreases |items|
  {
    var r := AfterScrape(rows, items);
    forall u | Known(rows, u) ensures Known(r, u) {
      var i :| 0 <= i < |rows| && rows[i].sourceUrl == Some(u);
      assert r[i] == rows[i];
    }
    if items != [] {
      var next := if Known(rows, items[0].sourceUrl) then rows
        else rows + [ScrapedRow(FreshId(rows), items[0])];
      if !Known(rows, items[0].sourceUrl) {
        AppendFresh(rows, ScrapedRow(FreshId(rows), items[0]));
        assert next[|rows|].sourceUrl == Some(items[0].sourceUrl);
      }
      assert Known(next, items[0].sourceUrl);
      ScrapeStoresEveryUrl(next, items[1..]);
      assert r == AfterScrape(next, items[1..]);
      forall i | 0 <= i < |items| ensures Known(r, items[i].sourceUrl) {
        if i > 0 { assert items[i] == items[1..][i - 1]; }
      }
    }
  }

  /** Each added row comes from a scraped article whose URL was stored neither
      before the scrape nor by an earlier row of the same scrape. */
  lemma {:induction false} ScrapeAddsOnlyUnknown(rows: seq<Models.Row>, items: seq<Scraper.ScrapedArticle>)
    requires ValidRows(rows)
    ensures var r := AfterScrape(rows, items);
      forall k :: |rows| <= k < |r| ==>
        && r[k].sourceUrl.Some? && !Known(r[..k], r[k].sourceUrl.value)
        && exists i :: 0 <= i < |items| && r[k] == ScrapedRow(r[k].id, items[i])
    decreases |items|
  {
    if items != [] {
      var r := AfterScrape(rows, items);
      var next := if Known(rows, items[0].sourceUrl) then rows
        else rows + [ScrapedRow(FreshId(rows), items[0])];
      if !Known(rows, items[0].sourceUrl) {
        AppendFresh(rows, ScrapedRow(FreshId(rows), items[0]));
      }
      ScrapeAddsOnlyUnknown(next, items[1..]);
      assert r == AfterScrape(next, items[1..]);
      assert r[..|next|] == next;
      forall k | |rows| <= k < |r|
        ensures && r[k].sourceUrl.Some? && !Known(r[..k], r[k].sourceUrl.value)
                && exists i :: 0 <= i < |items| && r[k] == ScrapedRow(r[k].id, items[i])
      {
        if k < |next| {
          assert r[k] == next[k] == ScrapedRow(FreshId(rows), items[0]);
          assert r[..k] == rows;
        } else {
          var i :| 0 <= i < |items[1..]| && r[k] == ScrapedRow(r[k].id, items[1..][i]);
          assert items[1..][i] == items[i + 1];
        }
      }
    }
  }

  /** A second scrape of the same articles adds nothing. */
  lemma {:induction false} ScrapeIdempotent(rows: seq<Models.Row>, items: seq<Scraper.ScrapedArticle>)
    requires ValidRows(rows)
    ensures AfterScrape(AfterScrape(rows, items), items) == AfterScrape(rows, items)
  {
    var r := AfterScrape(rows, items);
    ScrapeStoresEveryUrl(rows, items);
    AllKnownAddsNothing(r, items);
  }

  lemma {:induction false} AllKnownAddsNothing(rows: seq<Models.Row>, items: seq<Scraper.ScrapedArticle>)
    requires ValidRows(rows)
    requires forall i :: 0 <= i < |items| ==> Known(rows, items[i].sourceUrl)
    ensures AfterScrape(rows, items) == rows
    decreases |items|
  {
    if items != [] {
      assert Known(rows, items[0].sourceUrl);
      forall i | 0 <= i < |items[1..]| ensures Known(rows, items[1..][i].sourceUrl) {
        assert items[1..][i] == items[i + 1];
      }
      AllKnownAddsNothing(rows, items[1..]);
    }
  }

  /** Reference definition of a delete: every row but the one with that id. */
  function Without(rows: seq<Models.Row>, id: int): (r: seq<Models.Row>)
    ensures |r| <= |rows|
  {
    if rows == [] then []
    else if rows[0].id == id then Without(rows[1..], id)
    else [rows[0]] + Without(rows[1..], id)
  }

  /** A delete keeps exactly the rows with another id. */
  lemma {:induction false} WithoutMembers(rows: seq<Models.Row>, id: int)
    ensures forall x :: x in Without(rows, id) <==> x in rows && x.id != id
  {
    if rows != [] {
      WithoutMembers(rows[1..], id);
      assert forall x :: x in rows <==> x == rows[0] || x in rows[1..];
    }
  }

  /** Cutting out the row at the position of the id is `Without` that id. */
  lemma {:induction false} CutIsWithout(rows: seq<Models.Row>, k: nat)
    requires k < |rows| && forall i :: 0 <= i < |rows| && i != k ==> rows[i].id != rows[k].id
    ensures rows[..k] + rows[k + 1..] == Without(rows, rows[k].id)
  {
    var id := rows[k].id;
    var tail := rows[1..];
    if k == 0 {
      forall i | 0 <= i < |tail| ensures tail[i].id != id {
        assert tail[i] == rows[i + 1];
      }
      NoneRemoved(tail, id);
    } else {
      forall i | 0 <= i < |tail| && i != k - 1 ensures tail[i].id != tail[k - 1].id {
        assert tail[i] == rows[i + 1];
      }
      CutIsWithout(tail, k - 1);
      assert rows[..k] == [rows[0]] + tail[..k - 1];
      assert rows[k + 1..] == tail[k..];
    }
  }

  lemma {:induction false} NoneRemoved(rows: seq<Models.Row>, id: int)
    requires forall i :: 0 <= i < |rows| ==> rows[i].id != id
    ensures Without(rows, id) == rows
  {
    if rows != [] {
      NoneRemoved(rows[1..], id);
    }
  }

  /** The `article` table, updated in place by the routes. */
  class ArticleStore {
    var rows: seq<Models.Row>

    ghost predicate Valid()
      reads this
    {
      ValidRows(rows)
    }

    constructor(initial: seq<Models.Row>)
      requires ValidRows(initial)
      ensures Valid() && rows == initial
    {
      rows := initial;
    }

    /** `GET /api/articles/`: every stored article, serialised, in id order. */
    function GetArticles(): (resp: Response)
      reads this
      ensures resp.status == 200 && resp.body.Many?
      ensures |resp.body.articles| == |rows|
      ensures forall i :: 0 <= i < |rows| ==> resp.body.articles[i] == Models.ToDict(rows[i])
    {
      Response(200, Many(seq(|rows|, i requires 0 <= i < |rows| reads this => Models.ToDict(rows[i]))))
    }

    /** `GET /api/articles/<id>`: the stored article with that id, or 404. */
    function GetArticle(id: int): (resp: Response)
      reads this
      ensures resp.status == 200 <==> exists i :: 0 <= i < |rows| && rows[i].id == id
      ensures resp.status != 200 ==> resp == Response(404, DefaultErrorPage)
      ensures resp.status == 200 ==>
        exists i :: 0 <= i < |rows| && rows[i].id == id && resp.body == One(Models.ToDict(rows[i]))
    {
      var k := IndexOf(rows, id);
      if k.Some? then Response(200, One(Models.ToDict(rows[k.value])))
      else Response(404, DefaultErrorPage)
    }

    /** `POST /api/articles/`: a missing title or content violates NOT NULL and
        fails the request; otherwise a row with the next id is added. */
    method CreateArticle(data: NewArticle) returns (resp: Response)
      requires Valid()
      modifies this
      ensures Valid()
      ensures data.title.None? || data.content.None? ==>
        resp == Response(500, DefaultErrorPage) && rows == old(rows)
      ensures data.title.Some? && data.content.Some? ==>
        var row := Models.NewRow(FreshId(old(rows)), data.title.value, data.content.value,
                                 data.sourceUrl, data.kind, data.references);
        && rows == old(rows) + [row]
        && resp == Response(201, One(Models.ToDict(row)))
    {
      if data.title.None? || data.content.None? {
        return Response(500, DefaultErrorPage);
      }
      var row := Models.NewRow(FreshId(rows), data.title.value, data.content.value,
                               data.sourceUrl, data.kind, data.references);
      AppendFresh(rows, row);
      rows := rows + [row];
      resp := Response(201, One(Models.ToDict(row)));
    }

    /** `DELETE /api/articles/<id>`: 404 when no row has that id, otherwise that
        row alone is removed. */
    method DeleteArticle(id: int) returns (resp: Response)
      requires Valid()
      modifies this
      ensures Valid()
      ensures rows == Without(old(rows), id)
      ensures (exists i :: 0 <= i < |old(rows)| && old(rows)[i].id == id) ==>
        resp == Response(200, Message("Deleted"))
      ensures (forall i :: 0 <= i < |old(rows)| ==> old(rows)[i].id != id) ==>
        resp == Response(404, DefaultErrorPage) && rows == old(rows)
    {
      var k := IndexOf(rows, id);
      if k.None? {
        NoneRemoved(rows, id);
        return Response(404, DefaultErrorPage);
      }
      CutIsWithout(rows, k.value);
      rows := rows[..k.value] + rows[k.value + 1..];
      resp := Response(200, Message("Deleted"));
    }

    /** `POST /api/articles/scrape`: an exception of the scraper fails the request
        before any insert; otherwise each scraped article is inserted unless its
        URL is already stored. The response carries no counts. */
    method ScrapeArticles(index: ContentFetcher.Fetch, pages: string -> ContentFetcher.Fetch)
      returns (resp: Response)
      requires Valid()
      modifies this
      ensures Valid()
      ensures var scraped := Scraper.ScrapeResult(Scraper.DEFAULT_LIMIT, index, pages);
        && (scraped.Err? ==> resp == Response(500, DefaultErrorPage) && rows == old(rows))
        && (scraped.Ok? ==> resp == Response(200, Message("Scraping completed"))
                            && rows == AfterScrape(old(rows), scraped.value))
    {
      var scraped, _ := Scraper.ScrapeOldestArticles(Scraper.DEFAULT_LIMIT, index, pages);
      if scraped.Err? {
        return Response(500, DefaultErrorPage);
      }
      InsertScraped(scraped.value);
      resp := Response(200, Message("Scraping completed"));
    }

    /** The insert loop of the scrape route: one lookup by URL per article, and
        an insert when none is found. */
    method InsertScraped(items: seq<Scraper.ScrapedArticle>)
      requires Valid()
      modifies this
      ensures Valid() && rows == AfterScrape(old(rows), items)
    {
      var k := 0;
      while k < |items|
        invariant 0 <= k <= |items| && ValidRows(rows)
        invariant AfterScrape(old(rows), items) == AfterScrape(rows, items[k..])
      {
        AfterScrapeStep(rows, items, k);
        var art := items[k];
        var existing := IndexOfUrl(rows, art.sourceUrl);
        if existing.None? {
          rows := rows + [ScrapedRow(FreshId(rows), art)];
        }
        k := k + 1;
      }
    }
  }

  /** One step of `AfterScrape` on the remaining articles `items[k..]`. */
  lemma AfterScrapeStep(rows: seq<Models.Row>, items: seq<Scraper.ScrapedArticle>, k: nat)
    requires ValidRows(rows) && k < |items|
    ensures Known(rows, items[k].sourceUrl) ==>
      AfterScrape(rows, items[k..]) == AfterScrape(rows, items[k + 1..])
    ensures !Known(rows, items[k].sourceUrl) ==>
      && ValidRows(rows + [ScrapedRow(FreshId(rows), items[k])])
      && AfterScrape(rows, items[k..]) == AfterScrape(rows + [ScrapedRow(FreshId(rows), items[k])], items[k + 1..])
  {
    assert items[k..][0] == items[k] && items[k..][1..] == items[k + 1..];
    AppendFresh(rows, ScrapedRow(FreshId(rows), items[k]));
  }

  /** `Article.query.filter_by(source_url=url).first()`, as a position. */
  function IndexOfUrl(rows: seq<Models.Row>, url: string): (k: Option<nat>)
    ensures k.Some? ==> k.value < |rows| && rows[k.value].sourceUrl == Some(url)
    ensures k.None? <==> !Known(rows, url)
  {
    if rows == [] then None
    else if rows[0].sourceUrl == Some(url) then Some(0)
    else
      var k := IndexOfUrl(rows[1..], url);
      assert Known(rows, url) <==> rows[0].sourceUrl == Some(url) || Known(rows[1..], url) by {
        if Known(rows[1..], url) {
          var i :| 0 <= i < |rows[1..]| && rows[1..][i].sourceUrl == Some(url);
          assert rows[i + 1].sourceUrl == Some(url);
        }
        if Known(rows, url) && rows[0].sourceUrl != Some(url) {
          var i :| 0 <= i < |rows| && rows[i].sourceUrl == Some(url);
          assert rows[1..][i - 1].sourceUrl == Some(url);
        }
      }
      if k.Some? then Some(k.value + 1) else None
  }
}
