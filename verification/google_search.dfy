/** Web search for reference articles (backend/services/google_search.py). The
    HTTP request to the search API is an input: its failure, or the decoded
    JSON's `organic` list. */
module GoogleSearch {
  import opened Text

  const EXCLUDED_DOMAIN: string := "beyondchats.com"
  const MAX_LINKS: nat := 2
  const MISSING_KEY_MESSAGE: string := "SERPER_API_KEY is not set. Please set it in environment variables."

  /** An entry of the `organic` results; `link` is absent when the JSON object lacks it. */
  datatype OrganicItem = OrganicItem(link: Option<string>)

  /** What the search request produced. */
  datatype SearchReply =
    | RequestFailed(reason: string)       // a `requests` exception, including a bad HTTP status
    | ResponseUnreadable(reason: string)  // any other exception while reading the response
    | Answered(organic: Option<seq<OrganicItem>>)  // None when the JSON has no "organic" key

  /** The exceptions `google_search` raises. */
  datatype SearchError = ValueError(message: string) | KeyError(key: string)

  predicate Admissible(link: string) {
    !Contains(link, EXCLUDED_DOMAIN)
  }

  /** The loop of `google_search` from item 0 on, with `acc` collected so far:
      `item.get("link", "")` is tested, `item["link"]` appended, and the loop
      stops once two links are held. */
  function Collect(items: seq<OrganicItem>, acc: seq<string>): (r: Result<seq<string>, SearchError>)
    requires |acc| < MAX_LINKS
    ensures r.Ok? ==> |acc| <= |r.value| <= MAX_LINKS && r.value[..|acc|] == acc
    ensures r.Ok? ==> forall i :: |acc| <= i < |r.value| ==> Admissible(r.value[i])
    ensures r.Err? ==> r.error == KeyError("link") && exists i :: 0 <= i < |items| && items[i].link.None?
    decreases |items|
  {
    if items == [] then Ok(acc)
    else
      var link := items[0].link.GetOr("");
      if !Admissible(link) then
        var r := Collect(items[1..], acc);
        assert r.Err? ==> exists i :: 0 <= i < |items[1..]| && items[1..][i].link.None?;
        r
      else if items[0].link.None? then Err(KeyError("link"))
      else if |acc + [link]| == MAX_LINKS then Ok(acc + [link])
      else
        var r := Collect(items[1..], acc + [link]);
        assert r.Err? ==> exists i :: 0 <= i < |items[1..]| && items[1..][i].link.None?;
        r
  }

  /** Reference definition: the links of the items that have one and are admissible, in order. */
  function AdmittedLinks(items: seq<OrganicItem>): (r: seq<string>)
    ensures |r| <= |items|
    ensures forall i :: 0 <= i < |r| ==> Admissible(r[i])
  {
    if items == [] then []
    else if items[0].link.Some? && Admissible(items[0].link.value) then
      [items[0].link.value] + AdmittedLinks(items[1..])
    else AdmittedLinks(items[1..])
  }

  /** The first `n` elements, or all of them when there are fewer. */
  function Take<T>(s: seq<T>, n: nat): (r: seq<T>)
    ensures |r| <= n && |r| <= |s| && r == s[..|r|]
    ensures |s| >= n ==> |r| == n
  {
    if |s| <= n then s else s[..n]
  }

  /** When every item has a link, the search returns the first two admissible
      links, in result order. */
  lemma {:induction false} CollectIsFirstAdmitted(items: seq<OrganicItem>, acc: seq<string>)
    requires |acc| < MAX_LINKS
    requires forall i :: 0 <= i < |items| ==> items[i].link.Some?
    ensures Collect(items, acc) == Ok(Take(acc + AdmittedLinks(items), MAX_LINKS))
    decreases |items|
  {
    if items == [] {
      assert acc + [] == acc;
    } else {
      var link := items[0].link.value;
      if Admissible(link) {
        var acc' := acc + [link];
        assert acc + AdmittedLinks(items) == acc' + AdmittedLinks(items[1..]);
        if |acc'| < MAX_LINKS {
          CollectIsFirstAdmitted(items[1..], acc');
        }
      } else {
        CollectIsFirstAdmitted(items[1..], acc);
      }
    }
  }

  /** Reading an item without `link` raises KeyError once it is reached, that is,
      while fewer than two links are held: `item.get` lets it through the test
      and `item["link"]` fails. */
  lemma {:induction false} CollectStopsAtMissingLink(items: seq<OrganicItem>, acc: seq<string>, k: nat)
    requires |acc| < MAX_LINKS && k < |items| && items[k].link.None?
    requires forall i :: 0 <= i < k ==> items[i].link.Some?
    requires |acc + AdmittedLinks(items[..k])| < MAX_LINKS
    ensures Collect(items, acc) == Err(KeyError("link"))
    decreases k
  {
    if k > 0 {
      var link := items[0].link.value;
      assert items[1..][..k - 1] == items[..k][1..];
      if Admissible(link) {
        assert acc + AdmittedLinks(items[..k]) == (acc + [link]) + AdmittedLinks(items[1..][..k - 1]);
        CollectStopsAtMissingLink(items[1..], acc + [link], k - 1);
      } else {
        CollectStopsAtMissingLink(items[1..], acc, k - 1);
      }
    }
  }

  /** Once the items read hold two admissible links, the loop has stopped: the
      items after them are never read. With `CollectIsFirstAdmitted` applied to
      `items[..k]`, the result is the first two admissible links, in result
      order, whatever the later items hold. */
  lemma {:induction false} CollectStopsAtTwo(items: seq<OrganicItem>, acc: seq<string>, k: nat)
    requires |acc| < MAX_LINKS && k <= |items|
    requires |acc + AdmittedLinks(items[..k])| >= MAX_LINKS
    ensures Collect(items, acc) == Collect(items[..k], acc)
    decreases k
  {
    var link := items[0].link.GetOr("");
    assert items[..k][0] == items[0];
    assert items[1..][..k - 1] == items[..k][1..];
    if Admissible(link) && items[0].link.Some? && |acc + [link]| < MAX_LINKS {
      assert acc + AdmittedLinks(items[..k]) == (acc + [link]) + AdmittedLinks(items[1..][..k - 1]);
      CollectStopsAtTwo(items[1..], acc + [link], k - 1);
    } else if !Admissible(link) {
      assert AdmittedLinks(items[..k]) == AdmittedLinks(items[1..][..k - 1]);
      CollectStopsAtTwo(items[1..], acc, k - 1);
    }
  }

  /** What `google_search` returns or raises, as a function of the key and the reply. */
  function SearchResult(keySet: bool, reply: SearchReply): (r: Result<seq<string>, SearchError>)
    ensures r.Ok? ==> keySet && reply.Answered? && |r.value| <= MAX_LINKS
    ensures r.Ok? ==> forall i :: 0 <= i < |r.value| ==> Admissible(r.value[i])
    ensures r.Err? && r.error.KeyError? ==> keySet && reply.Answered?
  {
    if !keySet then Err(ValueError(MISSING_KEY_MESSAGE))
    else match reply
      case RequestFailed(reason) => Err(ValueError("Failed to connect to Google Search API: " + reason))
      case ResponseUnreadable(reason) => Err(ValueError("Error processing Google Search response: " + reason))
      case Answered(organic) => Collect(organic.GetOr([]), [])
  }

  /** `google_search(query)`: no key raises before any request; request and
      response failures become ValueError; otherwise the organic links are
      collected. Also says whether the HTTP request was made. */
  method Search(keySet: bool, reply: SearchReply) returns (r: Result<seq<string>, SearchError>, requested: bool)
    ensures r == SearchResult(keySet, reply)
    ensures !keySet ==> !requested && r == Err(ValueError(MISSING_KEY_MESSAGE))
    ensures keySet ==> requested
    ensures keySet && reply.RequestFailed? ==>
      r == Err(ValueError("Failed to connect to Google Search API: " + reply.reason))
    ensures keySet && reply.ResponseUnreadable? ==>
      r == Err(ValueError("Error processing Google Search response: " + reply.reason))
    ensures keySet && reply.Answered? ==> r == Collect(reply.organic.GetOr([]), [])
    ensures r.Ok? ==> |r.value| <= MAX_LINKS && forall i :: 0 <= i < |r.value| ==> Admissible(r.value[i])
  {
    if !keySet {
      return Err(ValueError(MISSING_KEY_MESSAGE)), false;
    }
    requested := true;
    match reply {
      case RequestFailed(reason) =>
        return Err(ValueError("Failed to connect to Google Search API: " + reason)), requested;
      case ResponseUnreadable(reason) =>
        return Err(ValueError("Error processing Google Search response: " + reason)), requested;
      case Answered(organic) =>
        var items := organic.GetOr([]);
        var links: seq<string> := [];
        var i := 0;
        while i < |items|
          invariant 0 <= i <= |items| && |links| < MAX_LINKS
          invariant Collect(items[i..], links) == Collect(items, [])
        {
          var item := items[i];
          if Admissible(item.link.GetOr("")) {
            if item.link.None? {
              return Err(KeyError("link")), requested;
            }
            links := links + [item.link.value];
          }
          if |links| == MAX_LINKS {
            return Ok(links), requested;
          }
          i := i + 1;
        }
        r := Ok(links);
    }
  }
}
