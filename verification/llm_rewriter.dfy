/** Rewriting with the language model (backend/services/llm_rewriter.py): the
    fixed list of models is tried in order, moving on only when the error says
    the model is unavailable. Each chat call is an input: `chat(model)` is what
    that call would produce. Prompt text and temperature are not modelled. */
module LlmRewriter {
  import opened Text

  const MODELS: seq<string> := ["command-r7b-12-2024", "command-r-plus", "command-r", "command-r7b"]
  const MISSING_KEY_MESSAGE: string := "COHERE_API_KEY is not set"

  /** The outcome of one chat call: the text of the first content item, or the
      text of the exception raised (`str(e)`). */
  datatype ChatReply = Answer(text: string) | Failure(text: string)

  /** An error whose lower-cased text mentions "not found", "removed" or "404"
      means the model is unavailable; the next one is tried. */
  predicate IsModelMissing(errorText: string) {
    var e := Lower(errorText);
    Contains(e, "not found") || Contains(e, "removed") || Contains(e, "404")
  }

  function ApiErrorMessage(model: string, errorText: string): string {
    "Cohere API error with model " + model + ": " + errorText
  }

  /** The message once every model in `models` has been reported unavailable. */
  function AllFailedMessage(models: seq<string>, lastError: Option<string>): string {
    "Failed to rewrite article. Tried models: " + Join(models, ", ") + ". "
    + "Last error: " + lastError.GetOr("Unknown error") + ". "
    + "Please check: https://docs.cohere.com/docs/models for available models."
  }

  /** How the loop over the models ends. */
  datatype Outcome =
    | Answered(text: string)                    // a model replied: its text is returned
    | ApiFailure(model: string, error: string)  // an error not about availability: raised at once
    | AllUnavailable(lastError: Option<string>) // every model was reported unavailable

  /** The value `rewrite_article` returns for an outcome, or the message of the
      RuntimeError it raises. */
  function Message(models: seq<string>, o: Outcome): (r: Result<string, string>)
    ensures r.Ok? <==> o.Answered?
    ensures r.Ok? ==> IsStripped(r.value)
  {
    match o
    case Answered(text) => Ok(Strip(text))
    case ApiFailure(model, error) => Err(ApiErrorMessage(model, error))
    case AllUnavailable(lastError) => Err(AllFailedMessage(models, lastError))
  }

  /** Reference definition of the loop from `models[i]` on, `lastError` being the
      text of the previous failure. */
  function TryFrom(models: seq<string>, i: nat, chat: string -> ChatReply, lastError: Option<string>): (r: Outcome)
    requires i <= |models|
    ensures r.ApiFailure? ==> r.model in models[i..]
    ensures r.AllUnavailable? ==> if i < |models| then r.lastError.Some? else r.lastError == lastError
    decreases |models| - i
  {
    if i == |models| then AllUnavailable(lastError)
    else match chat(models[i])
      case Answer(text) => Answered(text)
      case Failure(text) =>
        if IsModelMissing(text) then TryFrom(models, i + 1, chat, Some(text))
        else ApiFailure(models[i], text)
  }

  /** What `rewrite_article` returns, or the message of the RuntimeError it raises. */
  function RewriteResult(keySet: bool, chat: string -> ChatReply): (r: Result<string, string>)
    ensures !keySet ==> r == Err(MISSING_KEY_MESSAGE)
    ensures r.Ok? ==> keySet && IsStripped(r.value)
  {
    if keySet then Message(MODELS, TryFrom(MODELS, 0, chat, None)) else Err(MISSING_KEY_MESSAGE)
  }

  /** The reply to `model` says the model is unavailable. */
  predicate Skipped(chat: string -> ChatReply, model: string) {
    chat(model).Failure? && IsModelMissing(chat(model).text)
  }

  /** After `k` unavailable models the loop goes on from `models[k]`, remembering
      the last of those failures. */
  lemma {:induction false} SkipUnavailable(models: seq<string>, k: nat, chat: string -> ChatReply)
    requires 0 < k <= |models|
    requires forall j :: 0 <= j < k ==> Skipped(chat, models[j])
    ensures TryFrom(models, 0, chat, None) == TryFrom(models, k, chat, Some(chat(models[k - 1]).text))
  {
    if k > 1 {
      SkipUnavailable(models, k - 1, chat);
    }
  }

  /** The outcome is decided by the reply of the last model called: its answer,
      its error, or, when even the last model in the list is unavailable, the
      end of the list with that model's error as the last one. */
  lemma TryFromOutcome(models: seq<string>, tried: seq<string>, chat: string -> ChatReply)
    requires 1 <= |tried| <= |models| && tried == models[..|tried|]
    requires forall j :: 0 <= j < |tried| - 1 ==> Skipped(chat, tried[j])
    requires |tried| < |models| ==> !Skipped(chat, tried[|tried| - 1])
    ensures var last := tried[|tried| - 1]; var reply := chat(last); var o := TryFrom(models, 0, chat, None);
      && (reply.Answer? ==> o == Answered(reply.text))
      && (reply.Failure? && !IsModelMissing(reply.text) ==> o == ApiFailure(last, reply.text))
      && (reply.Failure? && IsModelMissing(reply.text) ==> tried == models && o == AllUnavailable(Some(reply.text)))
  {
    var n := |tried|;
    assert forall j :: 0 <= j < n ==> tried[j] == models[j];
    if n > 1 {
      SkipUnavailable(models, n - 1, chat);
    }
  }

  /** The loop of `rewrite_article` over `models`: how it ends and the models
      called, in call order. Every model before the last one called was
      unavailable; the loop stops early only on a reply that is not. */
  method TryModels(models: seq<string>, chat: string -> ChatReply) returns (o: Outcome, tried: seq<string>)
    requires models != []
    ensures o == TryFrom(models, 0, chat, None)
    ensures 1 <= |tried| <= |models| && tried == models[..|tried|]
    ensures forall j :: 0 <= j < |tried| - 1 ==> Skipped(chat, tried[j])
    ensures |tried| < |models| ==> !Skipped(chat, tried[|tried| - 1])
  {
    tried := [];
    var lastError: Option<string> := None;
    var i := 0;
    while i < |models|
      invariant 0 <= i <= |models| && tried == models[..i]
      invariant forall j :: 0 <= j < i ==> Skipped(chat, models[j])
      invariant i == 0 ==> lastError == None
      invariant i > 0 ==> lastError == Some(chat(models[i - 1]).text)
      invariant TryFrom(models, i, chat, lastError) == TryFrom(models, 0, chat, None)
    {
      var model := models[i];
      var reply := chat(model);
      tried := tried + [model];
      if reply.Answer? {
        return Answered(reply.text), tried;
      }
      lastError := Some(reply.text);
      if !IsModelMissing(reply.text) {
        return ApiFailure(model, reply.text), tried;
      }
      i := i + 1;
    }
    o := AllUnavailable(lastError);
  }

  /** `rewrite_article(...)`: the result (`Err` carries the RuntimeError's
      message) and the models called, in call order. */
  method RewriteArticle(keySet: bool, chat: string -> ChatReply) returns (r: Result<string, string>, tried: seq<string>)
    ensures r == RewriteResult(keySet, chat)
    ensures !keySet ==> tried == [] && r == Err(MISSING_KEY_MESSAGE)
    ensures keySet ==> 1 <= |tried| <= |MODELS| && tried == MODELS[..|tried|]
    ensures keySet ==> forall j :: 0 <= j < |tried| - 1 ==> Skipped(chat, tried[j])
    ensures keySet ==> var last := tried[|tried| - 1]; var reply := chat(last);
      && (reply.Answer? ==> r == Ok(Strip(reply.text)))
      && (reply.Failure? && !IsModelMissing(reply.text) ==> r == Err(ApiErrorMessage(last, reply.text)))
      && (reply.Failure? && IsModelMissing(reply.text) ==>
            tried == MODELS && r == Err(AllFailedMessage(MODELS, Some(reply.text))))
  {
    if !keySet {
      return Err(MISSING_KEY_MESSAGE), [];
    }
    var o;
    o, tried := TryModels(MODELS, chat);
    TryFromOutcome(MODELS, tried, chat);
    r := Message(MODELS, o);
  }
}
