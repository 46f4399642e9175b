/** The batch rewrite script (scripts/phase2-run.js): fetch the article list,
    select the targets (one article by id, or every original article), then ask
    the backend to rewrite each target in turn, logging each failure and going
    on. Remote calls are inputs: the list fetch, and the reply to the k-th
    rewrite call. JavaScript's `Number(argId)` is an input function too. */
module Phase2Run {
  import opened Text
  import Api
  import ArticlesList

  const UNKNOWN_ERROR: string := "Unknown error occurred"

  /** A JavaScript number: NaN or a finite value. Infinity and -Infinity have no
      value here; as ids they match no article, like any real no article has. */
  datatype JsNumber = NaN | Num(value: real)

  /** The body of the list fetch: a JSON array of articles, or anything else. */
  datatype ListBody = ArrayOf(items: seq<Api.Article>) | NotAnArray

  /** The outcome of target selection: the targets, or why the run stops with exit code 1. */
  datatype Selection =
    | Targets(articles: seq<Api.Article>)
    | NoArticles        // the list is not an array, or empty
    | InvalidId         // `Number(argId)` is NaN
    | IdNotFound        // no article has that id
    | NothingToRewrite  // no original article

  /** What the log says of one target. */
  datatype ItemOutcome = Created(id: int, newId: int) | Failed(id: int, message: string)

  /** `articles.find((a) => a.id === idNum)`, as a position. */
  function FindById(items: seq<Api.Article>, v: real): (k: Option<nat>)
    ensures k.Some? ==> k.value < |items| && items[k.value].id as real == v
    ensures k.Some? ==> forall j :: 0 <= j < k.value ==> items[j].id as real != v
    ensures k.None? ==> forall j :: 0 <= j < |items| ==> items[j].id as real != v
  {
    if items == [] then None
    else if items[0].id as real == v then Some(0)
    else
      var k := FindById(items[1..], v);
      if k.Some? then Some(k.value + 1) else None
  }

  /** Target selection of `main`, up to the rewrite loop. */
  function SelectTargets(list: ListBody, argId: Option<string>, toNumber: string -> JsNumber): (s: Selection)
    ensures (list.NotAnArray? || list.items == []) <==> s == NoArticles
    ensures s.Targets? ==> s.articles != []
    ensures list.ArrayOf? && list.items != [] && Api.Truthy(argId) ==>
      && (toNumber(argId.value).NaN? <==> s == InvalidId)
      && (s.Targets? ==>
            && toNumber(argId.value).Num? && |s.articles| == 1
            && exists k :: 0 <= k < |list.items| && list.items[k] == s.articles[0]
                 && list.items[k].id as real == toNumber(argId.value).value
                 && forall j :: 0 <= j < k ==> list.items[j].id as real != toNumber(argId.value).value)
      && (s == IdNotFound <==>
            && toNumber(argId.value).Num?
            && forall j :: 0 <= j < |list.items| ==> list.items[j].id as real != toNumber(argId.value).value)
      && s != NothingToRewrite
    ensures list.ArrayOf? && list.items != [] && !Api.Truthy(argId) ==>
      && s != InvalidId && s != IdNotFound
      && (s.Targets? ==> s.articles == ArticlesList.OfKind(list.items, Api.ORIGINAL))
      && (s == NothingToRewrite <==> ArticlesList.OfKind(list.items, Api.ORIGINAL) == [])
  {
    if list.NotAnArray? || list.items == [] then NoArticles
    else if Api.Truthy(argId) then
      match toNumber(argId.value)
      case NaN => InvalidId
      case Num(v) =>
        var k := FindById(list.items, v);
        if k.None? then IdNotFound else Targets([list.items[k.value]])
    else
      var originals := ArticlesList.OfKind(list.items, Api.ORIGINAL);
      if originals == [] then NothingToRewrite else Targets(originals)
  }

  /** Without an id, the targets are every original article and nothing else, in list order. */
  lemma AllOriginalsTargeted(items: seq<Api.Article>, toNumber: string -> JsNumber)
    requires items != []
    ensures var s := SelectTargets(ArrayOf(items), None, toNumber);
      s.Targets? ==>
        && ArticlesList.IsSubsequence(s.articles, items)
        && forall a :: a in s.articles <==> a in items && a.kind == Api.ORIGINAL
  {
    ArticlesList.OfKindIsOrderedSelection(items, Api.ORIGINAL);
  }

  /** An id argument that reads as a fractional number matches no article, since
      every id is an integer: the run stops with "not found". */
  lemma FractionalIdMatchesNothing(items: seq<Api.Article>, argId: string, toNumber: string -> JsNumber)
    requires items != [] && argId != ""
    requires toNumber(argId).Num? && toNumber(argId).value != toNumber(argId).value.Floor as real
    ensures SelectTargets(ArrayOf(items), Some(argId), toNumber) == IdNotFound
  {
  }

  /** The log entry of one rewrite call. */
  function Outcome(target: Api.Article, reply: Api.Reply<Api.Article>): (o: ItemOutcome)
    ensures o.id == target.id
    ensures reply.Replied? <==> o.Created?
    ensures o.Created? ==> o.newId == reply.value.id
    ensures o.Failed? ==> o.message == Api.ErrorMessage(reply.error, UNKNOWN_ERROR) && o.message != ""
  {
    match reply
    case Replied(updated) => Created(target.id, updated.id)
    case Rejected(err) => Failed(target.id, Api.ErrorMessage(err, UNKNOWN_ERROR))
  }

  /** `main()`: the exit code, the ids sent to the rewrite endpoint in call order,
      and the per-target log. `rewrite(k)` is the reply to the k-th rewrite call. */
  method Run(fetched: Api.Reply<ListBody>, argId: Option<string>, toNumber: string -> JsNumber,
             rewrite: nat -> Api.Reply<Api.Article>)
    returns (exitCode: int, calls: seq<int>, log: seq<ItemOutcome>)
    ensures fetched.Rejected? ==> exitCode == 1 && calls == [] && log == []
    ensures fetched.Replied? && !SelectTargets(fetched.value, argId, toNumber).Targets? ==>
      exitCode == 1 && calls == [] && log == []
    ensures fetched.Replied? && SelectTargets(fetched.value, argId, toNumber).Targets? ==>
      var targets := SelectTargets(fetched.value, argId, toNumber).articles;
      && exitCode == 0
      && |calls| == |targets| && |log| == |targets|
      && (forall k :: 0 <= k < |targets| ==> calls[k] == targets[k].id)
      && (forall k :: 0 <= k < |targets| ==> log[k] == Outcome(targets[k], rewrite(k)))
  {
    calls, log := [], [];
    if fetched.Rejected? {
      return 1, calls, log;
    }
    var selection := SelectTargets(fetched.value, argId, toNumber);
    if !selection.Targets? {
      return 1, calls, log;
    }
    var targets := selection.articles;
    var k := 0;
    while k < |targets|
      invariant 0 <= k <= |targets| && |calls| == k && |log| == k
      invariant forall j :: 0 <= j < k ==> calls[j] == targets[j].id
      invariant forall j :: 0 <= j < k ==> log[j] == Outcome(targets[j], rewrite(j))
    {
      var article := targets[k];
      calls := calls + [article.id];
      var reply := rewrite(k);
      match reply {
        case Replied(updated) =>
          log := log + [Created(article.id, updated.id)];
        case Rejected(err) =>
          log := log + [Failed(article.id, Api.ErrorMessage(err, UNKNOWN_ERROR))];
      }
      k := k + 1;
    }
    exitCode := 0;
  }
}
