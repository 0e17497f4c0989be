/** The values the migration pipeline reads and the environment it runs against. */
module Types {

  datatype Option<+T> = None | Some(value: T)

  /** One entry of a video's `download` array; its `link` key may be absent. */
  datatype DownloadEntry = DownloadEntry(link: Option<string>)

  /** A video object of a listing page. Every key the pipeline reads may be absent (None). */
  datatype Video = Video(
    uri: Option<string>,
    name: Option<string>,
    createdTime: Option<string>,
    download: Option<seq<DownloadEntry>>)

  /** What fetching one listing page yields: None when the request failed, else the page's items. */
  type Listing = Option<seq<Video>>

  /** How one streamed transfer of a download link ends. */
  datatype Transfer =
    | Completed          // the response streamed to the end
    | FailedBeforeOpen   // connection, timeout or HTTP status error before the local file is opened
    | FailedAfterOpen    // the stream broke after the local file was created

  /** What the remote DELETE call answers. */
  datatype DeleteReply = Status(code: int) | Raised

  /** A file in the download directory is either fully written or a leftover of a broken transfer. */
  datatype FileState = Complete | Partial

  /** Observable steps of a run, in the order they happen. */
  datatype Event =
    | List(page: nat)
    | Download(name: string, transferred: bool, ok: bool)
    | Delete(uri: string, ok: bool)

  /**
   * The environment: the download directory, the remote catalog as a sequence of listing
   * pages (page p is pages[p - 1]; pages past the end list as empty), and oracles that answer
   * a transfer or a delete request made when the trace holds n events.
   */
  datatype Env = Env(
    downloadDir: string,
    pages: seq<Listing>,
    transferAt: (nat, string) -> Transfer,
    deleteAt: (nat, string) -> DeleteReply)

  /** Local state a run changes: download directory contents and the event trace. */
  datatype World = World(files: map<string, FileState>, trace: seq<Event>)
}
