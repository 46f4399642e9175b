/** The article list page (src/pages/ArticlesList.tsx). Its state is a
    `ListView` whose handlers update the fields in sequence; each remote call's
    outcome is an input, and every handler returns the calls it made, in order.
    The filtered list and the filter counts are pure projections of the state. */
module ArticlesList {
  import opened Text
  import Api

  const LOAD_ERROR: string := "Unable to load articles. Please check your connection and try again."
  const SCRAPE_ERROR: string := "Unable to scrape articles. Please check your connection and try again."

  /** The remote calls the page makes. */
  datatype Call = FetchArticles | ScrapeArticles

  /** The values of the filter toggle. */
  datatype FilterOption = All | Original | Updated

  /** The controls that start a load, and the reload that follows a scrape. */
  datatype Trigger = StartButton | TryAgainButton | RefreshButton | ReloadAfterScrape

  /** The `autoScrapeIfEmpty` each control passes: the start button passes `true`;
      "Try Again" and "Refresh" hand over their click event, which is truthy; the
      reload after a scrape passes nothing, so the default `false`. */
  function AutoScrape(t: Trigger): (flag: bool)
    ensures flag <==> t != ReloadAfterScrape
  {
    match t
    case StartButton => true
    case TryAgainButton => true
    case RefreshButton => true
    case ReloadAfterScrape => false
  }

  /** The articles of one `type`, in list order. */
  function OfKind(articles: seq<Api.Article>, kind: string): (r: seq<Api.Article>)
    ensures |r| <= |articles|
    ensures forall i :: 0 <= i < |r| ==> r[i].kind == kind
  {
    if articles == [] then []
    else if articles[0].kind == kind then [articles[0]] + OfKind(articles[1..], kind)
    else OfKind(articles[1..], kind)
  }

  /** `xs` is `ys` with some elements left out, the rest in the same order. */
  predicate IsSubsequence<T(==)>(xs: seq<T>, ys: seq<T>)
    decreases |ys|
  {
    if xs == [] then true
    else if ys == [] then false
    else if xs[0] == ys[0] then IsSubsequence(xs[1..], ys[1..])
    else IsSubsequence(xs, ys[1..])
  }

  /** `OfKind` keeps every article of that kind and nothing else, in order. */
  lemma {:induction false} OfKindIsOrderedSelection(articles: seq<Api.Article>, kind: string)
    ensures IsSubsequence(OfKind(articles, kind), articles)
    ensures forall a :: a in OfKind(articles, kind) <==> a in articles && a.kind == kind
  {
    if articles != [] {
      OfKindIsOrderedSelection(articles[1..], kind);
      assert forall a :: a in articles <==> a == articles[0] || a in articles[1..];
      var rest := OfKind(articles[1..], kind);
      if articles[0].kind != kind && rest != [] {
        assert IsSubsequence(rest, articles) by {
          SubsequenceOfTail(rest, articles);
        }
      }
    }
  }

  /** A subsequence of the tail is a subsequence of the whole. */
  lemma {:induction false} SubsequenceOfTail<T>(xs: seq<T>, ys: seq<T>)
    requires ys != [] && IsSubsequence(xs, ys[1..])
    ensures IsSubsequence(xs, ys)
    decreases |xs| + |ys|
  {
    if xs != [] && xs[0] == ys[0] {
      SubsequenceWithoutHead(xs, ys[1..]);
    }
  }

  /** Dropping the first element keeps a subsequence. */
  lemma {:induction false} SubsequenceWithoutHead<T>(xs: seq<T>, ys: seq<T>)
    requires xs != [] && IsSubsequence(xs, ys)
    ensures IsSubsequence(xs[1..], ys)
    decreases |xs| + |ys|
  {
    assert ys != [];
    if xs[0] != ys[0] {
      SubsequenceWithoutHead(xs, ys[1..]);
    }
    SubsequenceOfTail(xs[1..], ys);
  }

  function KindOf(filter: FilterOption): string
    requires filter != All
  {
    if filter == Original then Api.ORIGINAL else Api.UPDATED
  }

  /** `filteredArticles`: everything for "all", otherwise the articles of that type. */
  function Filtered(articles: seq<Api.Article>, filter: FilterOption): (r: seq<Api.Article>)
    ensures filter == All ==> r == articles
    ensures filter != All ==> r == OfKind(articles, KindOf(filter))
  {
    if filter == All then articles else OfKind(articles, KindOf(filter))
  }

  /** The numbers on the filter badges. */
  datatype Counts = Counts(all: nat, original: nat, updated: nat)

  /** `counts`: computed from the articles alone. */
  function CountsOf(articles: seq<Api.Article>): (c: Counts)
    ensures c.all == |articles|
    ensures c.original == |OfKind(articles, Api.ORIGINAL)| && c.updated == |OfKind(articles, Api.UPDATED)|
  {
    Counts(|articles|, |OfKind(articles, Api.ORIGINAL)|, |OfKind(articles, Api.UPDATED)|)
  }

  /** When every article is original or updated, the two badges add up to "all". */
  lemma {:induction false} CountsAddUp(articles: seq<Api.Article>)
    requires forall i :: 0 <= i < |articles| ==> articles[i].kind in {Api.ORIGINAL, Api.UPDATED}
    ensures CountsOf(articles).original + CountsOf(articles).updated == CountsOf(articles).all
  {
    if articles != [] {
      CountsAddUp(articles[1..]);
    }
  }

  /** The badge of a filter counts exactly the articles that filter shows. */
  lemma CountMatchesFilter(articles: seq<Api.Article>, filter: FilterOption)
    ensures |Filtered(articles, filter)| ==
      match filter
      case All => CountsOf(articles).all
      case Original => CountsOf(articles).original
      case Updated => CountsOf(articles).updated
  {
  }

  /** The state of the page. */
  class ListView {
    var articles: seq<Api.Article>
    var loading: bool
    var scraping: bool
    var error: Option<string>
    var filter: FilterOption
    var hasStarted: bool

    constructor()
      ensures articles == [] && !loading && !scraping && error == None
      ensures filter == All && !hasStarted
    {
      articles, loading, scraping, error, filter, hasStarted := [], false, false, None, All, false;
    }

    /** `filteredArticles` of the current state. */
    function Shown(): (r: seq<Api.Article>)
      reads this
      ensures r == Filtered(articles, filter)
      ensures IsSubsequence(r, articles)
    {
      if filter == All then
        SubsequenceRefl(articles);
        Filtered(articles, filter)
      else
        OfKindIsOrderedSelection(articles, KindOf(filter));
        Filtered(articles, filter)
    }

    /** Selecting a filter changes nothing else, so the counts stay as they are. */
    method SetFilter(f: FilterOption)
      modifies this
      ensures filter == f && articles == old(articles) && CountsOf(articles) == CountsOf(old(articles))
      ensures loading == old(loading) && scraping == old(scraping) && error == old(error)
      ensures hasStarted == old(hasStarted)
    {
      filter := f;
    }

    /** `loadArticles(autoScrapeIfEmpty)`: fetch; when the list is empty and the flag
        is set, scrape and fetch again, ignoring a failure of either; a failure of
        the first fetch sets the load error and keeps the articles. */
    method LoadArticles(autoScrape: bool, first: Api.Reply<seq<Api.Article>>,
                        scrape: Api.Reply<string>, second: Api.Reply<seq<Api.Article>>)
      returns (calls: seq<Call>)
      modifies this
      ensures !loading && hasStarted && filter == old(filter)
      ensures first.Replied? && first.value == [] && autoScrape ==> !scraping
      ensures !(first.Replied? && first.value == [] && autoScrape) ==> scraping == old(scraping)
      ensures first.Rejected? ==>
        calls == [FetchArticles] && error == Some(LOAD_ERROR) && articles == old(articles)
      ensures first.Replied? && (first.value != [] || !autoScrape) ==>
        calls == [FetchArticles] && error == None && articles == first.value
      ensures first.Replied? && first.value == [] && autoScrape && scrape.Rejected? ==>
        calls == [FetchArticles, ScrapeArticles] && error == None && articles == []
      ensures first.Replied? && first.value == [] && autoScrape && scrape.Replied? ==>
        && calls == [FetchArticles, ScrapeArticles, FetchArticles] && error == None
        && articles == (if second.Replied? then second.value else [])
    {
      loading := true;
      error := None;
      hasStarted := true;
      calls := [FetchArticles];
      if first.Rejected? {
        error := Some(LOAD_ERROR);
        loading := false;
        return;
      }
      var data := first.value;
      if |data| == 0 && autoScrape {
        scraping := true;
        calls := calls + [ScrapeArticles];
        if scrape.Replied? {
          calls := calls + [FetchArticles];
          if second.Replied? {
            data := second.value;
          }
        }
        scraping := false;
      }
      articles := data;
      loading := false;
    }

    /** `handleScrape()`: a failed scrape sets the scrape error and reloads nothing;
        a successful one reloads once, without auto-scrape. */
    method HandleScrape(scrape: Api.Reply<string>, reload: Api.Reply<seq<Api.Article>>)
      returns (calls: seq<Call>)
      modifies this
      ensures !scraping && filter == old(filter)
      ensures scrape.Rejected? ==>
        && calls == [ScrapeArticles] && error == Some(SCRAPE_ERROR)
        && articles == old(articles) && loading == old(loading) && hasStarted == old(hasStarted)
      ensures scrape.Replied? ==>
        && calls == [ScrapeArticles, FetchArticles] && !loading && hasStarted
        && (reload.Rejected? ==> error == Some(LOAD_ERROR) && articles == old(articles))
        && (reload.Replied? ==> error == None && articles == reload.value)
    {
      scraping := true;
      error := None;
      calls := [ScrapeArticles];
      if scrape.Rejected? {
        error := Some(SCRAPE_ERROR);
        scraping := false;
        return;
      }
      // The reload passes a false flag, so it never scrapes: the `scrape` and
      // second `reload` arguments are never consulted.
      var more := LoadArticles(AutoScrape(ReloadAfterScrape), reload, scrape, reload);
      calls := calls + more;
      scraping := false;
    }
  }

  lemma {:induction false} SubsequenceRefl<T>(xs: seq<T>)
    ensures IsSubsequence(xs, xs)
    decreases |xs|
  {
    if xs != [] {
      SubsequenceRefl(xs[1..]);
    }
  }
}
