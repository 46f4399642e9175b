/** The article card of the list page (src/components/ArticleCard.tsx): a
    preview of the content and a link to the article's own page. */
module ArticleCard {
  import opened Text

  const PREVIEW_LENGTH: nat := 150
  /** The ellipsis as the file spells it: the three characters "â€¦", which is
      what the UTF-8 bytes of "…" read as Windows-1252 look like. */
  const GARBLED_ELLIPSIS: string := "\U{00E2}\U{20AC}\U{00A6}"
  /** The horizontal ellipsis, U+2026. */
  const ELLIPSIS: string := "\U{2026}"
  const ARTICLE_PATH: string := "/article/"

  /** The stripped text is a piece of the original, cut at both ends. */
  lemma StripIsInfix(s: string)
    ensures Contains(s, Strip(s))
  {
    var r := Strip(s);
    StripIsTrimmedSlice(s);
    var i, j :| TrimmedSlice(s, r, i, j);
    assert OccursAt(s, r, i);
    ContainsAt(s, r);
  }

  /** `content.length > 150 ? content.substring(0, 150).trim() + suffix : content` */
  function Truncated(content: string, suffix: string): (r: string)
    ensures |content| <= PREVIEW_LENGTH ==> r == content
    ensures |content| > PREVIEW_LENGTH ==> r == Strip(content[..PREVIEW_LENGTH]) + suffix
    ensures |content| > PREVIEW_LENGTH ==>
      && |suffix| <= |r| <= PREVIEW_LENGTH + |suffix|
      && r[|r| - |suffix|..] == suffix
      && IsStripped(r[..|r| - |suffix|])
      && Contains(content[..PREVIEW_LENGTH], r[..|r| - |suffix|])
  {
    if |content| > PREVIEW_LENGTH then
      var head := Strip(content[..PREVIEW_LENGTH]);
      StripIsInfix(content[..PREVIEW_LENGTH]);
      var r := head + suffix;
      assert r[..|r| - |suffix|] == head;
      r
    else content
  }

  /** The preview as the component computes it, with the garbled suffix. */
  function PreviewAsWritten(content: string): (r: string)
    ensures |content| <= PREVIEW_LENGTH ==> r == content
    ensures |content| > PREVIEW_LENGTH ==> r == Strip(content[..PREVIEW_LENGTH]) + GARBLED_ELLIPSIS
    ensures |content| > PREVIEW_LENGTH ==> |r| >= 3 && r[|r| - 3..] == GARBLED_ELLIPSIS
  {
    Truncated(content, GARBLED_ELLIPSIS)
  }

  /** The preview as intended: cut content ends with a single "…". */
  function Preview(content: string): (r: string)
    ensures |content| <= PREVIEW_LENGTH ==> r == content
    ensures |content| > PREVIEW_LENGTH ==> r == Strip(content[..PREVIEW_LENGTH]) + ELLIPSIS
    ensures |content| > PREVIEW_LENGTH ==>
      && 1 <= |r| <= PREVIEW_LENGTH + 1 && r[|r| - 1] == '\U{2026}'
      && IsStripped(r[..|r| - 1]) && Contains(content[..PREVIEW_LENGTH], r[..|r| - 1])
  {
    Truncated(content, ELLIPSIS)
  }

  /** Every cut preview shows three stray characters where one ellipsis is meant:
      the garbled preview is two characters longer and does not end in "…". */
  lemma GarbledPreview(content: string)
    requires |content| > PREVIEW_LENGTH
    ensures |PreviewAsWritten(content)| == |Preview(content)| + 2
    ensures PreviewAsWritten(content)[|PreviewAsWritten(content)| - 1] != '\U{2026}'
    ensures PreviewAsWritten(content)[..|PreviewAsWritten(content)| - 3]
         == Preview(content)[..|Preview(content)| - 1]
  {
  }

  /** The path of an article's page, `/article/${id}`: the card links there. */
  function ArticlePath(id: int): (r: string)
    ensures |r| > |ARTICLE_PATH| && r[..|ARTICLE_PATH|] == ARTICLE_PATH
  {
    ARTICLE_PATH + IntToString(id)
  }

  /** The id read back from the link's last segment is the card's article id. */
  lemma ArticlePathRoundTrip(id: int)
    ensures ParseInt(ArticlePath(id)[|ARTICLE_PATH|..]) == Some(id)
  {
    assert ArticlePath(id)[|ARTICLE_PATH|..] == IntToString(id);
    ParseIntToString(id);
  }
}
