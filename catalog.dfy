/** The remote catalog client: listing one page and deleting one video. */
module Catalog {
  import opened Types

  /** The HTTP status the API answers a successful delete with ("no content"). */
  const NoContent := 204

  /** The listing of page `page` (counted from 1); a page past the end lists as empty. */
  function ListPage(pages: seq<Listing>, page: nat): (l: Listing)
    ensures 1 <= page <= |pages| ==> l == pages[page - 1]
    ensures page == 0 || page > |pages| ==> Ends(l)
  {
    if 1 <= page <= |pages| then pages[page - 1] else Some([])
  }

  /** A listing ends the pagination loop when it is falsy in Python: None or the empty list. */
  predicate Ends(l: Listing): (b: bool)
    ensures b <==> l == None || l == Some([])
  {
    l.None? || |l.value| == 0
  }

  /** A delete succeeded exactly when the API answered 204; any other status or an exception is a failure. */
  function DeleteSucceeded(reply: DeleteReply): (ok: bool)
    ensures ok <==> reply == Status(NoContent)
    ensures reply.Raised? ==> !ok
  {
    match reply
    case Status(code) => code == NoContent
    case Raised => false
  }

  /** One delete request for `uri`: asked once, recorded in the trace, the download directory untouched. */
  function DeleteStep(env: Env, w: World, uri: string): (r: (World, bool))
    ensures r.0.files == w.files
    ensures r.1 <==> env.deleteAt(|w.trace|, uri) == Status(NoContent)
    ensures r.0.trace == w.trace + [Delete(uri, r.1)]
  {
    var ok := DeleteSucceeded(env.deleteAt(|w.trace|, uri));
    (World(w.files, w.trace + [Delete(uri, ok)]), ok)
  }
}
