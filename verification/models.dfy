/** The stored article record (backend/models.py) and its serialisation
    `to_dict`, which turns the comma-separated `references` column into a list. */
module Models {
  import opened Text
  import Api

  /** A row of the `article` table. `references` is a comma-separated string. */
  datatype Row = Row(
    id: int,
    title: string,
    content: string,
    sourceUrl: Option<string>,
    kind: string,
    references: Option<string>)

  /** Builds a row the way `Article(...)` does: a `type` that is absent or null
      (None) defaults to "original". */
  function NewRow(id: int, title: string, content: string, sourceUrl: Option<string>,
                  kind: Option<string>, references: Option<string>): (r: Row)
    ensures kind.None? ==> r.kind == Api.ORIGINAL
    ensures kind.Some? ==> r.kind == kind.value
    ensures r.id == id && r.title == title && r.content == content
    ensures r.sourceUrl == sourceUrl && r.references == references
  {
    Row(id, title, content, sourceUrl, kind.GetOr(Api.ORIGINAL), references)
  }

  /** `references.split(",") if references else []` */
  function ReferenceList(references: Option<string>): (r: seq<string>)
    ensures r == [] <==> references.None? || references.value == ""
    ensures r != [] ==> Join(r, ",") == references.value
  {
    if references.Some? && references.value != "" then
      JoinSplit(references.value, ',');
      Split(references.value, ',')
    else []
  }

  /** `Article.to_dict()`: every scalar column copied, `references` split on commas. */
  function ToDict(row: Row): (a: Api.Article)
    ensures a.id == row.id && a.title == row.title && a.content == row.content
    ensures a.sourceUrl == row.sourceUrl && a.kind == row.kind
    ensures a.references == ReferenceList(row.references)
  {
    Api.Article(row.id, row.title, row.content, row.sourceUrl, row.kind, ReferenceList(row.references))
  }

  /** The references string written by a rewrite, `",".join(links)`, reads back as
      the same links whenever the list is non-empty, is not `[""]`, and no link
      holds a comma. */
  lemma ReferencesRoundTrip(links: seq<string>)
    requires |links| >= 1 && links != [""]
    requires forall i :: 0 <= i < |links| ==> ',' !in links[i]
    ensures ReferenceList(Some(Join(links, ","))) == links
  {
    SplitJoin(links, ',');
  }

  /** The single empty link is lost: it is stored as "" and read back as no references. */
  lemma EmptyLinkLost()
    ensures ReferenceList(Some(Join([""], ","))) == []
  {
  }

  /** A link holding a comma comes back as two references. */
  lemma CommaLinkSplit()
    ensures ReferenceList(Some(Join(["Article: A, B"], ","))) == ["Article: A", " B"]
  {
    var s := "Article: A, B";
    assert s == "Article: A" + "," + " B";
    SplitJoin(["Article: A", " B"], ',');
    assert Join(["Article: A", " B"], [',']) == s;
  }
}
