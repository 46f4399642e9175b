/** The client's view of the remote article service (src/api/axios.ts): the
    `Article` shape the backend returns, and the failure of a remote call as
    the client sees it. Transport, interceptors and logging are not modelled. */
module Api {
  import opened Text

  const ORIGINAL: string := "original"
  const UPDATED: string := "updated"

  /** An article as serialised by the backend and consumed by the client. */
  datatype Article = Article(
    id: int,
    title: string,
    content: string,
    sourceUrl: Option<string>,
    kind: string,            // "original" | "updated" by convention; any string at run time
    references: seq<string>)

  /** A rejected remote call: the response body's `error` field (if any) and
      the error's own `message` (if any). */
  datatype HttpError = HttpError(bodyError: Option<string>, message: Option<string>)

  /** The outcome of one remote call. */
  datatype Reply<+T> = Replied(value: T) | Rejected(error: HttpError)

  /** JavaScript truthiness of an optional string: present and non-empty. */
  predicate Truthy(s: Option<string>) {
    s.Some? && s.value != ""
  }

  /** `err?.response?.data?.error || err?.message || fallback`: the body's
      message wins, then the error's own message, then the fixed text. */
  function ErrorMessage(err: HttpError, fallback: string): (msg: string)
    ensures Truthy(err.bodyError) ==> msg == err.bodyError.value
    ensures !Truthy(err.bodyError) && Truthy(err.message) ==> msg == err.message.value
    ensures !Truthy(err.bodyError) && !Truthy(err.message) ==> msg == fallback
    ensures fallback != "" ==> msg != ""
  {
    if Truthy(err.bodyError) then err.bodyError.value
    else if Truthy(err.message) then err.message.value
    else fallback
  }
}
