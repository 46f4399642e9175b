/** Paragraph extraction of a fetched page (backend/services/content_fetcher.py,
    and the same expression in backend/services/scraper.py). HTML parsing is
    not modelled: a page is given by what BeautifulSoup would return from it. */
module ContentFetcher {
  import opened Text

  const PARAGRAPH_SEPARATOR: string := "\n\n"
  /** A paragraph is kept when its stripped text is longer than this. */
  const MIN_PARAGRAPH: nat := 50

  /** A parsed page: the `href` of every `<a href>`, the text of the first `<h1>`
      (if any) and the text of every `<p>`, in document order. */
  datatype Page = Page(hrefs: seq<string>, heading: Option<string>, paragraphs: seq<string>)

  /** The outcome of `requests.get(url)`: an exception, or a page. */
  datatype Fetch = Unreachable(reason: string) | Fetched(page: Page)

  predicate Qualifies(p: string) {
    |Strip(p)| > MIN_PARAGRAPH
  }

  /** The stripped paragraphs that qualify, in document order. */
  function Kept(paragraphs: seq<string>): (r: seq<string>)
    ensures forall i :: 0 <= i < |r| ==> |r[i]| > MIN_PARAGRAPH && IsStripped(r[i])
  {
    if paragraphs == [] then []
    else
      var p := paragraphs[0];
      var rest := Kept(paragraphs[1..]);
      if Qualifies(p) then [Strip(p)] + rest
      else rest
  }

  /** Kept paragraphs stay in document order: those of an earlier part of the
      page come before those of a later part, each part's own kept paragraphs
      in their order. */
  lemma {:induction false} KeptInOrder(first: seq<string>, second: seq<string>)
    ensures Kept(first + second) == Kept(first) + Kept(second)
  {
    if first == [] {
      assert first + second == second;
    } else {
      assert (first + second)[1..] == first[1..] + second;
      KeptInOrder(first[1..], second);
    }
  }

  /** Exactly the qualifying paragraphs are kept, stripped. */
  lemma {:induction false} KeptMembers(paragraphs: seq<string>)
    ensures forall p :: p in paragraphs && Qualifies(p) ==> Strip(p) in Kept(paragraphs)
    ensures forall q :: q in Kept(paragraphs) ==> exists p :: p in paragraphs && Qualifies(p) && q == Strip(p)
  {
    if paragraphs != [] {
      var head, tail := paragraphs[0], paragraphs[1..];
      KeptMembers(tail);
      var rest := Kept(tail);
      assert Kept(paragraphs) == if Qualifies(head) then [Strip(head)] + rest else rest;
      forall p | p in paragraphs && Qualifies(p)
        ensures Strip(p) in Kept(paragraphs)
      {
        if p != head {
          assert p in tail;
        }
      }
      forall q | q in Kept(paragraphs)
        ensures exists p :: p in paragraphs && Qualifies(p) && q == Strip(p)
      {
        if !(Qualifies(head) && q == Strip(head)) {
          assert q in rest;
          var p :| p in tail && Qualifies(p) && q == Strip(p);
          assert p in paragraphs;
        }
      }
    }
  }

  /** `"\n\n".join(p.get_text().strip() for p in paragraphs if len(...) > 50)` */
  function ParagraphText(paragraphs: seq<string>): string
  {
    Join(Kept(paragraphs), PARAGRAPH_SEPARATOR)
  }

  /** `fetch_article_content(url)`: a request failure propagates, otherwise the
      paragraph text of the page. */
  function FetchArticleContent(fetch: Fetch): (r: Result<string, string>)
    ensures fetch.Unreachable? <==> r.Err?
    ensures r.Ok? ==> r.value == ParagraphText(fetch.page.paragraphs)
  {
    match fetch
    case Unreachable(reason) => Err(reason)
    case Fetched(page) => Ok(ParagraphText(page.paragraphs))
  }

  /** First and last characters of a join of non-empty parts, and a lower bound on its length. */
  lemma {:induction false} JoinEnds(parts: seq<string>, sep: string)
    requires |parts| >= 1
    requires forall i :: 0 <= i < |parts| ==> |parts[i]| >= 1
    ensures var j := Join(parts, sep);
      |j| >= |parts[0]| && j[0] == parts[0][0] && j[|j| - 1] == parts[|parts| - 1][|parts[|parts| - 1]| - 1]
  {
    if |parts| > 1 {
      JoinEnds(parts[1..], sep);
    }
  }

  /** The paragraph text is empty exactly when no paragraph qualifies. */
  lemma EmptyIffNoneQualifies(paragraphs: seq<string>)
    ensures ParagraphText(paragraphs) == "" <==> forall p :: p in paragraphs ==> !Qualifies(p)
  {
    var k := Kept(paragraphs);
    KeptMembers(paragraphs);
    if k != [] {
      JoinEnds(k, PARAGRAPH_SEPARATOR);
      assert k[0] in k;
    }
  }

  /** Any non-empty paragraph text is its own strip and longer than 50 characters,
      so it always passes the reference-length check of the rewrite route. */
  lemma NonEmptyTextIsLong(paragraphs: seq<string>)
    requires ParagraphText(paragraphs) != ""
    ensures var t := ParagraphText(paragraphs);
      Strip(t) == t && |Strip(t)| > MIN_PARAGRAPH
  {
    var k := Kept(paragraphs);
    var t := ParagraphText(paragraphs);
    JoinEnds(k, PARAGRAPH_SEPARATOR);
    assert IsStripped(k[0]) && IsStripped(k[|k| - 1]);
    StripFixed(t);
  }
}
