# Article rewriting, modelled in Dafny

This project models the core of an article-rewriting application in Dafny and
proves properties of the model. The application has three parts.

- **A Flask backend.**
  - It stores articles in one SQLite table.
  - It scrapes the oldest posts of a blog into that table.
  - `POST /api/rewrite/<id>` rewrites one article with a language model. The
    model is given two reference texts. They come from a web search or, when
    the search fails, from two other original articles in the store. The
    result is stored as a new `updated` article.
- **A React client.**
  - A list page loads the articles, and scrapes when the list is empty.
  - A detail page shows one article and starts its rewrite.
- **A Node batch script.** It rewrites one article, or every original
  article, one call at a time.

Every remote effect is an input to the model:

- the HTTP reply of a page fetch;
- the search API's reply;
- each chat call to the language model;
- each call the client makes to the backend.

Operations that call remote services also return the trace of the calls they
made: the URLs fetched, the models tried, and the ids sent.

Modules, one per source file or concern:

- `Text`: `strip`, `join`/`split`, substring search, lower-casing and decimal
  rendering/parsing, with their round-trip lemmas.
- `Api`: the `Article` shape the client receives, the failure of a remote
  call, and the error-message cascade `body.error || message || fallback`.
- `Models`: the table row, the `type` default and `to_dict`.
- `ContentFetcher`: paragraph selection and joining of a fetched page.
- `GoogleSearch`: the organic-link loop and its error cases.
- `LlmRewriter`: the model fallback loop. The loop yields how it ended, and
  `Message` turns that into the returned text or the RuntimeError's message.
- `Scraper`: link selection, dedup, the last-`limit` slice and the page loop.
- `ArticlesRoutes`:
  - the store, a `class` whose `rows` field the routes update in place;
  - the list/get/create/delete/scrape routes.
- `RewriteRoute`: reference sourcing, the length check, the new article, and
  the whole route.
- `ArticleCard`: the preview and the card link.
- `ArticlesList`: the list page's state as a `class`, its handlers, the
  filter and the badge counts.
- `ArticleDetail`: the detail page's state as a `class`, its handlers and
  render priority.
- `Phase2Run`: target selection and the sequential rewrite loop of the batch
  script.

## Model

| member | source | states |
|---|---|---|
| Text.Strip | backend/services/content_fetcher.py:10 | The strip is no longer than its input and neither starts nor ends with whitespace. |
| Text.StripIsTrimmedSlice | backend/services/content_fetcher.py:10 | The strip is a slice of the input with only whitespace before it and after it. |
| Api.ErrorMessage | src/pages/ArticleDetail.tsx:50 | The message is the body's `error` when truthy, else the error's `message` when truthy, else the fallback. It is never empty when the fallback is not. |
| Models.NewRow | backend/models.py:5-11 | A missing `type` becomes "original", a given one is kept, and every other column is stored as given. |
| Models.ToDict | backend/models.py:13-21 | id, title, content, source_url and type are copied unchanged; `references` becomes `ReferenceList` of the column. |
| Models.ReferenceList | backend/models.py:20 | The list is empty exactly when the column is null or ""; otherwise joining it with "," gives back the column. |
| Models.ReferencesRoundTrip | backend/models.py:20 | For a non-empty link list other than `[""]` with no comma in any link, splitting the joined string gives back the list. |
| Models.EmptyLinkLost | backend/models.py:20 | The single empty link is stored as "" and reads back as no references. |
| Models.CommaLinkSplit | backend/models.py:20 | A link that holds a comma reads back as two references. |
| ContentFetcher.Kept | backend/services/content_fetcher.py:10-12 | Every kept paragraph is stripped and longer than 50 characters. |
| ContentFetcher.Qualifies | backend/services/content_fetcher.py:12 | Definition with no contract of its own: the stripped paragraph is longer than 50 characters. `KeptMembers` states which paragraphs are kept through it. |
| ContentFetcher.ParagraphText | backend/services/content_fetcher.py:9-13 | Reference definition with no contract of its own: the kept paragraphs joined with "\n\n". `EmptyIffNoneQualifies` and `NonEmptyTextIsLong` state its properties. |
| ContentFetcher.KeptInOrder | backend/services/content_fetcher.py:9-13 | Kept paragraphs keep document order: keeping the paragraphs of two parts of a page gives those of the first part, then those of the second. |
| ContentFetcher.KeptMembers | backend/services/content_fetcher.py:10-12 | The kept paragraphs are exactly the strips of the qualifying paragraphs. |
| ContentFetcher.FetchArticleContent | backend/services/content_fetcher.py:4-13 | A request failure is an error. Otherwise the result is the qualifying paragraphs joined with "\n\n". |
| ContentFetcher.EmptyIffNoneQualifies | backend/services/content_fetcher.py:9-13 | The text is empty if and only if no paragraph is longer than 50 characters once stripped. |
| ContentFetcher.NonEmptyTextIsLong | backend/services/content_fetcher.py:9-13 | A non-empty text is its own strip and longer than 50 characters. |
| GoogleSearch.Collect | backend/services/google_search.py:23-28 | The loop returns at most two links, every one free of "beyondchats.com". A KeyError is raised only by an item without `link`. |
| GoogleSearch.CollectStopsAtMissingLink | backend/services/google_search.py:24-26 | Reaching an item without `link` while fewer than two admissible links are held raises KeyError("link"). |
| GoogleSearch.CollectStopsAtTwo | backend/services/google_search.py:23-28 | Once the first k items give two admissible links, the items after them are never read: the result is that of the first k items. |
| GoogleSearch.CollectIsFirstAdmitted | backend/services/google_search.py:23-28 | When every item has a link, the result is the first two admissible links in result order. |
| GoogleSearch.AdmittedLinks | backend/services/google_search.py:24-26 | Reference definition of the admissible links in result order: no more links than items, each free of "beyondchats.com". |
| GoogleSearch.SearchResult | backend/services/google_search.py:4-30 | A link list needs the key and a decoded reply. It has at most two links, each free of "beyondchats.com". A KeyError also needs the key and a decoded reply. |
| GoogleSearch.Search | backend/services/google_search.py:4-30 | With no key it raises ValueError and makes no request. A request or decoding failure becomes ValueError with its message. Otherwise the result is the `organic` loop's, and a missing `organic` means an empty list. |
| LlmRewriter.IsModelMissing | backend/services/llm_rewriter.py:51-53 | Definition with no contract of its own: the lower-cased error text mentions "not found", "removed" or "404". |
| LlmRewriter.AllFailedMessage | backend/services/llm_rewriter.py:60-64 | Definition with no contract of its own: the message naming every model, joined by ", ", and the last error or "Unknown error". |
| LlmRewriter.Message | backend/services/llm_rewriter.py:48-64 | The result is a value if and only if a model answered. The value returned is stripped. |
| LlmRewriter.TryFrom | backend/services/llm_rewriter.py:37-64 | Reference definition of the loop. An immediate error names one of the models still to try. Once a model has been called, running out of models remembers an error; with none called, the given last error is kept. |
| LlmRewriter.RewriteResult | backend/services/llm_rewriter.py:4-64 | Without the key the error is "COHERE_API_KEY is not set". A returned text needs the key and is stripped. |
| LlmRewriter.SkipUnavailable | backend/services/llm_rewriter.py:37-55 | After `k` models that all replied "unavailable", the loop goes on from model `k` with the last of those errors remembered. |
| LlmRewriter.TryFromOutcome | backend/services/llm_rewriter.py:37-64 | Given the models called (a prefix of the list, all but the last unavailable, and the last available unless the list ran out), the loop's outcome is the last reply's answer, its immediate error, or the end of the list with that reply's error as the last one. |
| LlmRewriter.TryModels | backend/services/llm_rewriter.py:34-64 | The loop's outcome is the reference `TryFrom`. The models called are a prefix of the list, in order. Every model before the last one called was unavailable, and the loop stops early only on a reply that is not. |
| LlmRewriter.RewriteArticle | backend/services/llm_rewriter.py:4-64 | With no key it raises and calls no model. Models are called in list order, each at most once. Every model before the last one called failed as "not found"/"removed"/"404". The result is the stripped answer, the immediate error, or the all-failed message naming all models and the last error. |
| Scraper.BlogLinks | backend/services/scraper.py:10-14 | The candidate links are exactly the hrefs that start with "http" and contain "/blogs/". |
| Scraper.BlogLinksInOrder | backend/services/scraper.py:10-14 | Blog links keep document order: those of an earlier part of the page come before those of a later part. |
| Scraper.CollectBlogLinks | backend/services/scraper.py:10-14 | The loop collects `BlogLinks` of the page's hrefs. |
| Scraper.Dedup | backend/services/scraper.py:16 | `dict.fromkeys` keeps every link once and no duplicates. |
| Scraper.DedupKeepsFirstOrder | backend/services/scraper.py:16 | The kept links are in the order of their first occurrence. |
| Scraper.SliceFrom | backend/services/scraper.py:16 | Python's `xs[k:]` is a suffix of `xs`. |
| Scraper.KeepLast | backend/services/scraper.py:16 | `[-limit:]` keeps the last `min(limit, n)` links for `limit >= 1`, and all links for `limit == 0`. |
| Scraper.SelectedLinksShape | backend/services/scraper.py:10-16 | The visited links are distinct blog links, at most `limit` of them when `limit >= 1`. |
| Scraper.SelectedLinks | backend/services/scraper.py:10-16 | Reference definition with no contract of its own: the last `limit` distinct blog links. `SelectedLinksShape` states its properties. |
| Scraper.ArticleOf | backend/services/scraper.py:20-38 | Reference definition with no contract of its own: the article a fetched page yields. `ArticleOfPage` states its properties. |
| Scraper.ArticleOfPage | backend/services/scraper.py:23-38 | A page yields an article exactly when it has an `<h1>` and non-empty paragraph text. The article has type "original", its URL, the stripped heading and that text. |
| Scraper.Harvest | backend/services/scraper.py:18-40 | No more articles than links. |
| Scraper.HarvestedArticles | backend/services/scraper.py:18-40 | Every harvested article is original, has non-empty content and comes from one of the links. |
| Scraper.FetchStep | backend/services/scraper.py:19-38 | One link of the loop: an unreachable page ends the harvest with its error; a fetched page adds its article, if any, after those already collected. |
| Scraper.ScrapeResult | backend/services/scraper.py:6-40 | An unreachable index page raises. Every emitted article is original, has non-empty content and comes from one of the selected links. |
| Scraper.FetchArticles | backend/services/scraper.py:18-40 | The loop produces `Harvest` of the links. It requests a prefix of them, and all of them when no request fails. |
| Scraper.ScrapeOldestArticles | backend/services/scraper.py:6-40 | The method produces `ScrapeResult`. The index page is requested first, then a prefix of the selected links, in order. |
| ArticlesRoutes.FreshId | backend/models.py:6 | The next id is positive and larger than every stored id. |
| ArticlesRoutes.IndexOf | backend/routes/articles.py:14 | The position of the row with that id, or None exactly when no row has it. |
| ArticlesRoutes.IndexOfUrl | backend/routes/articles.py:36 | A row with that `source_url`, or None exactly when no row has it. |
| ArticlesRoutes.ScrapedRow | backend/routes/articles.py:38 | The added row keeps the scraped title, content, URL and type, takes the given id and has no references. |
| ArticlesRoutes.AfterScrape | backend/routes/articles.py:35-39 | The insert loop keeps every existing row unchanged and in place, only appends, and keeps ids valid. |
| ArticlesRoutes.ScrapeStoresEveryUrl | backend/routes/articles.py:35-39 | Afterwards every scraped URL is stored, and every URL stored before still is. |
| ArticlesRoutes.ScrapeAddsOnlyUnknown | backend/routes/articles.py:35-39 | Each added row is the row of a scraped article whose URL was stored by no earlier row. |
| ArticlesRoutes.ScrapeIdempotent | backend/routes/articles.py:32-40 | Scraping the same articles twice adds nothing the second time. |
| ArticlesRoutes.AllKnownAddsNothing | backend/routes/articles.py:35-39 | When every scraped URL is already stored, the store is unchanged. |
| ArticlesRoutes.Without | backend/routes/articles.py:25-30 | A delete never grows the store. |
| ArticlesRoutes.WithoutMembers | backend/routes/articles.py:25-30 | A delete keeps exactly the rows with another id. |
| ArticlesRoutes.CutIsWithout | backend/routes/articles.py:27-28 | Removing the one row with that id is `Without` that id. |
| ArticlesRoutes.NoneRemoved | backend/routes/articles.py:27 | With no row of that id, `Without` changes nothing. |
| ArticlesRoutes.ArticleStore.GetArticles | backend/routes/articles.py:7-10 | Status 200 with every stored row serialised, in store order. |
| ArticlesRoutes.ArticleStore.GetArticle | backend/routes/articles.py:12-15 | Status 200 with that row serialised if and only if the id is stored; otherwise the 404 page. |
| ArticlesRoutes.ArticleStore.CreateArticle | backend/routes/articles.py:17-23 | A missing title or content gives 500 and no change. Otherwise one row with a fresh id is appended and returned with 201. |
| ArticlesRoutes.ArticleStore.DeleteArticle | backend/routes/articles.py:25-30 | The store becomes `Without` the id. The answer is 200 "Deleted" when the id was stored, else 404 with the store unchanged. |
| ArticlesRoutes.ArticleStore.InsertScraped | backend/routes/articles.py:35-39 | The insert loop leaves the store as `AfterScrape` of the scraped articles, with ids still valid. |
| ArticlesRoutes.ArticleStore.ScrapeArticles | backend/routes/articles.py:32-40 | A scraper failure gives 500 and no change. Otherwise the store becomes `AfterScrape` and the answer is only the message "Scraping completed". |
| RewriteRoute.FindArticleAsWritten | backend/routes/rewrite.py:12-13 | Found if and only if the id is stored; otherwise a 500 carrying the NotFound text. |
| RewriteRoute.FindArticle | backend/routes/rewrite.py:13 | Found if and only if the id is stored; otherwise the 404 page. |
| RewriteRoute.UnknownIdIsServerError | backend/routes/rewrite.py:151-156 | For an unknown id the route as written answers 500, and the corrected lookup answers 404. |
| RewriteRoute.OtherOriginals | backend/routes/rewrite.py:38-41 | Only stored originals with another id, and valid ids stay ascending. |
| RewriteRoute.OtherOriginalsComplete | backend/routes/rewrite.py:38-41 | The query misses none: every stored original with another id is among `OtherOriginals`. |
| RewriteRoute.SourceLink | backend/routes/rewrite.py:47-50 | A fallback link is never empty. |
| RewriteRoute.FallbackPlan | backend/routes/rewrite.py:37-50 | A fallback plan has exactly two links, neither of them empty. |
| RewriteRoute.FallbackPlanShape | backend/routes/rewrite.py:37-50 | A plan exists if and only if the store holds two stored originals with distinct ids other than the given one. It uses the first two in id order: every other such original has an id at least the second's. Each link is `source_url`, or "Article: {title}" when that is absent or empty. |
| RewriteRoute.SearchFailed | backend/routes/rewrite.py:52-59 | The answer when the search and the store both fail has status 400. |
| RewriteRoute.TooFewLinks | backend/routes/rewrite.py:80-84 | The answer when one search link and no fallback remain has status 400. |
| RewriteRoute.FetchFailed | backend/routes/rewrite.py:91-104 | A failed reference fetch is answered with status 500. |
| RewriteRoute.FromStore | backend/routes/rewrite.py:37-59 | Without a fallback the answer is the given error. With one, the plan has two links. |
| RewriteRoute.FetchPlan | backend/routes/rewrite.py:86-106 | The plan exists if and only if both pages were fetched. Its links are the search links. A failure has status 500. |
| RewriteRoute.PlanReferences | backend/routes/rewrite.py:15-106 | A plan carries at least two links. A failure has status 500 exactly when the search gave two or more links, and 400 otherwise. |
| RewriteRoute.FromStoreCases | backend/routes/rewrite.py:37-59 | The store fallback succeeds if and only if there are two other originals (complete by `OtherOriginalsComplete`), with `FallbackPlan`'s references; otherwise the route answers the given error. |
| RewriteRoute.SearchFailureUsesStore | backend/routes/rewrite.py:23-59 | A failed search or one with no link falls back to the store. Without a fallback the answer is 400, naming the missing key when it is not set. |
| RewriteRoute.SingleLinkUsesStore | backend/routes/rewrite.py:62-84 | A single search link also falls back to the store. Without a fallback the answer is 400 with `links_found` 1. |
| RewriteRoute.TwoLinksFetched | backend/routes/rewrite.py:86-106 | With two or more links only the first two pages are fetched. A failed fetch gives 500 naming reference 1 or 2; otherwise the references are the two paragraph texts and the links are the search links. |
| RewriteRoute.FetchReferences | backend/routes/rewrite.py:86-106 | The two fetches compute `FetchPlan`. They request the first link, and the second one exactly when the first page was fetched. |
| RewriteRoute.Insufficient | backend/routes/rewrite.py:109-117 | A reference is refused if and only if its strip is shorter than 50 characters: the separate empty-string test never decides. |
| RewriteRoute.FetchedReferenceSufficiency | backend/routes/rewrite.py:109-117 | A fetched reference fails the length check if and only if no paragraph of its page is longer than 50 characters. |
| RewriteRoute.UpdatedRow | backend/routes/rewrite.py:134-144 | The new row has the original title plus " (Updated)", the rewritten content, type "updated", no source URL and the links joined by ",". |
| RewriteRoute.UpdatedReferencesReadBack | backend/routes/rewrite.py:134-143 | The new row's references read back through `to_dict` as the links used, when no link holds a comma. |
| RewriteRoute.GatherReferences | backend/routes/rewrite.py:15-106 | The imperative branches compute `PlanReferences` of the search result. At most the first two search links are fetched, in order. The first is fetched exactly when the search gives two or more links, and the second exactly when the first page was also fetched. |
| RewriteRoute.Rewrite | backend/routes/rewrite.py:10-149 | Unknown id gives 404 and fetches nothing. For a known id, the search links fetched are as in `GatherReferences`. A plan error, a short reference (1 before 2) or a model error answers without touching the store. The model is called only when the Cohere key is set, and the models tried are a prefix of the fallback list, in order. Success appends exactly one `UpdatedRow` with a fresh id and returns it. |
| ArticleCard.Truncated | src/components/ArticleCard.tsx:14-16 | Content of at most 150 characters is unchanged. Longer content becomes the strip of its first 150 characters followed by the suffix: a stripped piece of that prefix, then the suffix. |
| ArticleCard.PreviewAsWritten | src/components/ArticleCard.tsx:14-16 | Content of at most 150 characters is unchanged. Longer content becomes the strip of its first 150 characters followed by the three characters the file spells as its ellipsis. |
| ArticleCard.Preview | src/components/ArticleCard.tsx:14-16 | Content of at most 150 characters is unchanged. Longer content becomes the strip of its first 150 characters and then one "…": at most 151 characters, the head a stripped piece of that prefix. |
| ArticleCard.GarbledPreview | src/components/ArticleCard.tsx:15 | Every cut preview as written is two characters longer than intended and does not end in "…". |
| ArticleCard.ArticlePath | src/components/ArticleCard.tsx:20 | The link starts with "/article/" and continues beyond it. |
| ArticleCard.ArticlePathRoundTrip | src/components/ArticleCard.tsx:20 | The link's last segment parses back to the article's id. |
| ArticlesList.AutoScrape | src/pages/ArticlesList.tsx:105-190 | The start button, "Try Again" and "Refresh" all pass a truthy flag. Only the reload after a scrape passes false. |
| ArticlesList.OfKind | src/pages/ArticlesList.tsx:69 | It selects only articles of that type, and never more articles than given. |
| ArticlesList.OfKindIsOrderedSelection | src/pages/ArticlesList.tsx:67-70 | The selection is an order-preserving subsequence holding exactly the articles of that type. |
| ArticlesList.Filtered | src/pages/ArticlesList.tsx:67-70 | "all" shows everything; the other filters show that type's articles in order. |
| ArticlesList.CountsOf | src/pages/ArticlesList.tsx:73-77 | The badges count the articles, the originals and the updated ones. |
| ArticlesList.CountsAddUp | src/pages/ArticlesList.tsx:73-77 | When every type is one of the two values, original + updated == all. |
| ArticlesList.CountMatchesFilter | src/pages/ArticlesList.tsx:67-77 | Each badge equals the number of articles its filter shows. |
| ArticlesList.ListView.Shown | src/pages/ArticlesList.tsx:67-70 | The shown list is `Filtered(articles, filter)`, a subsequence of the loaded articles. |
| ArticlesList.ListView.SetFilter | src/pages/ArticlesList.tsx:164 | Only the filter changes, so the counts stay the same. |
| ArticlesList.ListView.LoadArticles | src/pages/ArticlesList.tsx:16-48 | A failed fetch sets the load error and keeps the articles. An empty list with the flag set gives exactly one scrape and, if that succeeds, one re-fetch; their failures are swallowed. Otherwise no scrape happens. `loading` ends false. |
| ArticlesList.ListView.HandleScrape | src/pages/ArticlesList.tsx:50-64 | A failed scrape sets the scrape error and reloads nothing. A successful one reloads once, without auto-scrape. `scraping` ends false. |
| ArticleDetail.Render | src/pages/ArticleDetail.tsx:56-230 | The priority is loading > load error without article > no article > rewriting > content. On the content screen, the source link shows when the URL is non-empty, the button only for originals, the banner above it when a rewrite error is set, and references only for updated articles that have them. |
| ArticleDetail.RewriteErrorShownOverContent | src/pages/ArticleDetail.tsx:171-193 | A rewrite error is shown above the article, never instead of it. |
| ArticleDetail.LoadErrorNeedsNoArticle | src/pages/ArticleDetail.tsx:65-89 | The load-error screen shows if and only if the page is not loading, has an error and holds no article. |
| ArticleDetail.DetailView.LoadArticle | src/pages/ArticleDetail.tsx:18-36 | Without an id nothing happens. Otherwise one fetch: success stores the article, failure sets the load error and keeps any held article. `loading` ends false. |
| ArticleDetail.DetailView.HandleRewriteAsWritten | src/pages/ArticleDetail.tsx:38-54 | No call without an id or an article. Success navigates to `/article/{new id}` and leaves `rewriting` set. Failure sets the cascaded message and clears `rewriting`. |
| ArticleDetail.DetailView.HandleRewrite | src/pages/ArticleDetail.tsx:38-54 | The same handler, but `rewriting` is cleared on every path. |
| ArticleDetail.DetailView.DismissRewriteError | src/pages/ArticleDetail.tsx:184 | Clears the rewrite error and nothing else. |
| ArticleDetail.DetailView.RouteChanged | src/pages/ArticleDetail.tsx:9 | Only the route parameter changes. The article, the loading flag, both errors and `rewriting` are kept. |
| ArticleDetail.StaleRewritingScreen | src/pages/ArticleDetail.tsx:44-46 | Handler as written: rewrite, navigate, load the new article, and the page still shows the rewriting screen. |
| ArticleDetail.NewArticleShown | src/pages/ArticleDetail.tsx:44-46 | The same steps with the corrected handler show the new article and its references. |
| Phase2Run.FindById | scripts/phase2-run.js:74 | The first article whose id equals the number, or None when no id equals it. |
| Phase2Run.SelectTargets | scripts/phase2-run.js:54-96 | An empty or non-array list stops the run. With an id: NaN stops it, a missing id stops it, and otherwise the one matching article is the target. Without an id, the targets are the originals, and none stops it. |
| Phase2Run.AllOriginalsTargeted | scripts/phase2-run.js:86-92 | Without an id, the targets are exactly the original articles, in list order. |
| Phase2Run.FractionalIdMatchesNothing | scripts/phase2-run.js:66-80 | An id argument that reads as a fractional number never matches, so the run stops with "not found". |
| Phase2Run.Outcome | scripts/phase2-run.js:102-121 | Success logs the new id. Failure logs the cascaded message, falling back to "Unknown error occurred"; it is never empty. |
| Phase2Run.Run | scripts/phase2-run.js:49-129 | A failed list fetch or a failed selection exits 1 with no rewrite call. Otherwise each target gets exactly one call, in order, and one log entry. A failed item does not stop the later ones, and the exit code is 0. |

## Left out

- HTML parsing, HTTP, the search API, the Cohere client and SQLite are not modelled. Their results are inputs: a parsed page (hrefs, first `<h1>`, `<p>` texts), the search reply, one reply per chat call, and one reply per client call.
- The prompt text, the system message and the temperature of the chat call are not modelled. The reply to a call depends only on the model name.
- `Strip`: only space, tab, LF, CR, VT and FF are removed, for both languages. Python's `strip()` and JavaScript's `trim()` also remove Unicode spaces such as U+00A0. They also differ from each other: Python's `strip()` removes U+001C to U+001F and U+0085, and JavaScript's `trim()` does not.
- Lengths are counted in code points. JavaScript counts UTF-16 code units in `length` and `substring`.
- `Lower`: only ASCII letters are lower-cased.
- `Number(argId)` is an input function. The parsing rules of JavaScript's `Number` are not modelled. Its values are NaN or finite: `Infinity` is left out. As an id it would match no article, as an unmatched finite value does.
- `ArticlesRoutes.ArticleStore.CreateArticle`: these are not modelled:
  - a body with an `id`: the row takes that id, and an id already taken fails the commit (500). In the model every new id comes from `ArticlesRoutes.FreshId`;
  - a body with an unknown key, which raises TypeError (500).
  An absent or null title or content is modelled as the NOT NULL failure answered with 500. An absent or null `type` gets the default "original".
- `ArticlesRoutes.ArticleStore.ScrapeArticles`: these are not modelled:
  - a failure of the commit itself;
  - concurrent requests;
  - SQLAlchemy's session.
  The dedup check sees rows added earlier in the same request, as autoflush gives.
- The store order is id order, and the fresh id is one more than the largest id. This is how SQLite allocates `INTEGER PRIMARY KEY` ids without AUTOINCREMENT. So after the row with the largest id is deleted, the next insert reuses that id, in SQLite and in `ArticlesRoutes.FreshId` alike.
- `RewriteRoute.OtherOriginals`: the store fallback takes the first two other originals in id order. SQL gives no order without `ORDER BY`.
- `RewriteRoute.Rewrite` uses the corrected lookup (404 for an unknown id). The behaviour as written is `RewriteRoute.FindArticleAsWritten`.
- The scraper's disabled TLS verification is not modelled.
- The page requests of the scraper and of the content fetcher set no timeout, so a server that never answers blocks the request for ever. The model assumes every fetch answers: the page is `Unreachable` or `Fetched`. Only the search request has a timeout (10 seconds); it is one more failed request, a `ValueError`.
- React scheduling is not modelled:
  - intermediate renders while a handler awaits;
  - effect timing;
  - router mechanics beyond the route parameter (`ArticleDetail.DetailView.RouteChanged`).
- Logging, `console` output and the mechanics of `process.exit` are not modelled.
- The render branches of the list page (start screen, empty state, the grid) are not modelled.
- The batch script's printing of references is not modelled.
- Presentation components (navigation bar, badges, loader, filter toggle) and the client's HTTP interceptors are not part of this model.
- The Flask app wiring, configuration loading and database initialisation script are not part of this model. The API keys are booleans: set or not.

## Findings

| source | as written | input that shows it | evidently intended | confidence | as-written member | corrected member |
|---|---|---|---|---|---|---|
| src/components/ArticleCard.tsx:15 | The suffix is the three characters U+00E2 U+20AC U+00A6 ("â€¦"), which is UTF-8 "…" read as Windows-1252. | Any content longer than 150 characters. | A single "…" after the trimmed head. | not executed | ArticleCard.GarbledPreview | ArticleCard.Preview |
| backend/routes/rewrite.py:13 | `get_or_404` raises NotFound inside the `try`, and `except Exception` (lines 151-156) turns it into 500. | `POST /api/rewrite/999` with no article 999. | 404, like `GET /api/articles/999`. | not executed | RewriteRoute.UnknownIdIsServerError | RewriteRoute.FindArticle |
| src/pages/ArticleDetail.tsx:44-46 | On success `rewriting` is never reset. The page of the new article is shown by the same mounted component, so it stays on the rewriting screen. | Rewrite article 1 into article 2 and follow the navigation. | Clear `rewriting` once the rewrite completes. | not executed; depends on the router reusing the page component across ids | ArticleDetail.StaleRewritingScreen | ArticleDetail.NewArticleShown |
