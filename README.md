# Vimeo cleaner: a verified model of the migration pipeline

The tool moves a Vimeo account's videos of one creation year to a local directory. It then
deletes each remote video once its local copy is present. `VimeoManager.process_videos` lists
the account's videos page by page (page 1, 2, …, oldest first). It stops at the first listing
that fails or is empty. For each video it applies the year filter, builds a file-name stem from
the video's name, and picks the first download link. Then it downloads the file (skipping a
file that already exists) and deletes the remote video only when the download succeeded. Two
counters, `processed` and `errors`, record the outcome.

The model keeps the decision logic and makes the environment abstract:

- `Types.Env` holds the download directory and the remote catalog as a sequence of listing
  pages. A page is `None` (fetch error) or a sequence of videos, and pages past the end list
  as empty. It also holds two oracles. One says how the transfer of a link ends (completed,
  failed before the local file was opened, failed after). The other gives the reply to a
  delete (a status code, or an exception). Both are asked with the number of events so far,
  so their answers may change over a run.
- The download directory is a map from path to `Complete` or `Partial`. A `Partial` file is
  a torn leftover of a broken transfer.
- Every listing, download and delete call appends an event (`List(page)`,
  `Download(name, transferred, ok)`, `Delete(uri, ok)`) to a trace. The ordering rules are
  stated over this trace.
- A video is a record whose keys may each be absent. A `KeyError` or a parse failure inside
  the per-video `try` block becomes a `Reject` decision, which counts as an error.

Modules: `Types` (values), `Catalog` (listing and the 204 rule for deletes), `Eligibility`
(year, name sanitisation, download link, per-video decision), `Downloader` (target path, skip
rule, cleanup of partial files), `Orchestrator` (the pipeline as functions, with the lemmas
about whole runs), and `VimeoCleaner` (the class `VimeoManager`). Its methods change the
directory and the trace step by step, and each is proved equal to the function it models.

The skip rule trusts any file at the target path, and the model makes its consequences explicit.
These consequences are behaviour of the code as written, and the model keeps it:

- A second video whose name sanitises to an already downloaded stem is deleted remotely
  without a transfer (`Orchestrator.DuplicateStemDeletedWithoutTransfer`). Its content exists
  nowhere locally.
- A torn leftover from a killed process is reported as a successful download, and the remote
  copy is then deleted (`Downloader.LeftoverTrusted`, `Orchestrator.LocalFileDeletedWithoutTransfer`).
- The listing is paged by offset over the live catalog. Deleting the videos of page n can move
  later videos onto page n, which the loop never lists again (see "Left out").

The model follows the code in these details, which a reader might expect otherwise:

- An empty `name` is kept as the empty stem, so the target file is `.mp4`. Only a missing
  `name` key gives `"unnamed"`.
- An empty download link counts as missing (`if not download_link`).
- A failed listing ends the loop exactly like an empty one.

## Model

| member | source | states |
|---|---|---|
| `Catalog.ListPage` | vimeo_cleaner.py:59-75 | a page of the catalog lists as recorded (a fetch error as None); a page outside the catalog lists as empty and so ends the loop |
| `Catalog.Ends` | vimeo_cleaner.py:136-138 | the loop stops on exactly the listings Python treats as false: None and the empty list |
| `Catalog.DeleteSucceeded` | vimeo_cleaner.py:116-127 | a delete succeeds iff the reply is status 204; any other status or an exception is a failure |
| `Catalog.DeleteStep` | vimeo_cleaner.py:116-127 | a delete request is made once and recorded in the trace; it reports success iff the oracle answers 204; local files are untouched |
| `Eligibility.ParseYear` | vimeo_cleaner.py:142 | a parsed year comes from a well-formed leading `YYYY-` field and lies in 1..9999; anything else is the parse exception |
| `Eligibility.ParseFormatYear` | vimeo_cleaner.py:142 | parsing a timestamp that starts with a year written as four digits and `-` gives back that year |
| `Eligibility.FormatParseYear` | vimeo_cleaner.py:142 | conversely, the first four characters of a timestamp that parses are its year written as four digits |
| `Eligibility.YearBoundary` | vimeo_cleaner.py:142-144 | `2022-12-31T23:59:59Z` is in year 2022 and is not skipped; `2023-01-01T00:00:00Z` is skipped for 2022 |
| `Eligibility.ReplaceSlashes` | vimeo_cleaner.py:147 | the result has the input's length, each '/' becomes '_' and every other character stays, so no '/' remains |
| `Eligibility.SanitizeName` | vimeo_cleaner.py:147 | the stem has no '/'; an absent name gives "unnamed"; a present name is kept character by character with '/' replaced by '_' |
| `Eligibility.SanitizeExample` | vimeo_cleaner.py:147 | "a/b" becomes "a_b", so "a/b" and "a_b" share a stem; an empty name stays empty |
| `Eligibility.GetDownloadLink` | vimeo_cleaner.py:77-83 | there is a link iff the `download` key is present, the list is non-empty and its first entry has a `link`; the result is that first link |
| `Eligibility.Classify` | vimeo_cleaner.py:140-152 | skip iff the timestamp parses to another year; reject a missing or malformed timestamp, then (for in-year videos) a missing uri, then a missing or empty link; only an in-year video with uri and non-empty link is migrated, under its sanitised stem |
| `Downloader.JoinPath` | vimeo_cleaner.py:87 | POSIX `os.path.join`: an absolute second component replaces the directory; a relative one follows the directory after exactly one '/', or stands alone after an empty directory |
| `Downloader.TargetPath` | vimeo_cleaner.py:87 | for a stem without '/' (every sanitised one) the file is `<stem>.mp4` directly inside the download directory |
| `Downloader.TargetPathInjective` | vimeo_cleaner.py:87 | distinct stems without '/' give distinct target paths |
| `Downloader.DownloadStep` | vimeo_cleaner.py:85-114 | an existing target file means success with no change; otherwise success iff the transfer completed; success means the path exists; failure means it does not; no other path changes; no torn file is created |
| `Downloader.DownloadTwiceTransfersOnce` | vimeo_cleaner.py:87-91 | after a successful download, a second one with the same stem succeeds without a transfer and changes no file |
| `Downloader.LeftoverTrusted` | vimeo_cleaner.py:89-91 | the skip rule reports success for a partial leftover at the target path and keeps it |
| `Orchestrator.ItemStep` | vimeo_cleaner.py:140-164 | a video that is not skipped raises exactly one counter by one; a skipped one neither |
| `Orchestrator.ItemStepOutcome` | vimeo_cleaner.py:140-164 | one video only appends to the trace: nothing for a skipped or rejected video, else a download of its stem, followed (only when that succeeded) by a delete of its own uri; a delete happens only when the local file exists; `processed` rises iff the delete succeeded; no torn file is created |
| `Orchestrator.ItemsStep` | vimeo_cleaner.py:140-164 | processing a page's videos never lowers a counter |
| `Orchestrator.RunFrom` | vimeo_cleaner.py:131-166 | the pagination loop never lowers a counter |
| `Orchestrator.LastPage` | vimeo_cleaner.py:131-138 | the stopping page is at or after the start page and at most one past the last page of the catalog |
| `Orchestrator.LastPageFirstEnd` | vimeo_cleaner.py:135-138 | the stopping page is the first page, from the start page on, whose listing failed or is empty |
| `Orchestrator.ItemStepProjections` | vimeo_cleaner.py:150-164 | one video lists no page, downloads only its own stem (if migrated), and raises `processed` exactly by its successful deletes |
| `Orchestrator.ItemsSafe` | vimeo_cleaner.py:140-164 | the loop over a page keeps every delete directly after a successful download and every successful download directly before a delete, and creates no torn file |
| `Orchestrator.ProjectionsAppendItem` | vimeo_cleaner.py:150-164 | the events of one video list no page, download only its stem when it is migrated, and add one successful delete exactly when the delete succeeded |
| `Orchestrator.ItemsCounts` | vimeo_cleaner.py:140-164 | over a page, the counters rise by the number of non-skipped videos, and `processed` by the number of successful deletes |
| `Orchestrator.ItemsOrder` | vimeo_cleaner.py:140-164 | the loop over a page lists no page, and downloads the stems of the page's migrated videos in listing order |
| `Orchestrator.PageRound` | vimeo_cleaner.py:131-166 | one round of the pagination loop on a non-empty page lists that page, counts its non-skipped videos, downloads their stems in order, keeps deletes gated and creates no torn file, then the loop goes on from the next page |
| `Orchestrator.RunSafe` | vimeo_cleaner.py:131-166 | over a whole run, no delete without a directly preceding successful download, no successful download without a delete, no torn file |
| `Orchestrator.RunCounts` | vimeo_cleaner.py:131-166 | over a run, `processed + errors` is the number of non-skipped videos on the visited pages, and `processed` is the number of successful deletes |
| `Orchestrator.ListedPagesAppendList` | vimeo_cleaner.py:136 | a listing request adds exactly its page to the listed pages |
| `Orchestrator.PagesListedRange` | vimeo_cleaner.py:131-138 | the pages a run lists are consecutive, from the start page up to and including the stopping page |
| `Orchestrator.RunStopsListed` | vimeo_cleaner.py:136-138 | a page whose listing fails or is empty is listed, and ends the run |
| `Orchestrator.RunListsPagesInOrder` | vimeo_cleaner.py:131-166 | a run lists the start page, then each following page while the previous listing was non-empty |
| `Orchestrator.RunDownloadsInOrder` | vimeo_cleaner.py:131-166 | the stems a run downloads are those of the migrated videos of the visited pages, in listing order |
| `Orchestrator.Run` | vimeo_cleaner.py:129-168 | a whole run from page 1 with zeroed counters: `processed + errors` is the number of non-skipped visited videos; `processed` is the number of successful deletes; pages 1 up to the stopping page are listed in order; downloads follow listing order; deletes stay gated on downloads; no torn file appears |
| `Orchestrator.StopsAtThirdPage` | vimeo_cleaner.py:135-138 | when page 3 is the first empty or failed listing, pages 1, 2, 3 are listed and only the videos of pages 1 and 2 are counted |
| `Orchestrator.LocalFileDeletedWithoutTransfer` | vimeo_cleaner.py:87-158 | a migrated video whose target file already exists (whole or torn) is reported downloaded without a transfer, no file changes, and a delete of its remote copy follows, counted as processed exactly when the API answers 204 |
| `Orchestrator.DuplicateStemDeletedWithoutTransfer` | vimeo_cleaner.py:147-160 | once one video is downloaded, a second video with the same stem counts as downloaded without a transfer, and a delete of its remote copy is requested, which succeeds exactly when the API answers 204 |
| `VimeoCleaner.VimeoManager.constructor` | vimeo_cleaner.py:25-39 | a manager starts from the given environment and directory, with an empty trace |
| `VimeoCleaner.VimeoManager.GetVideos` | vimeo_cleaner.py:59-75 | one listing request returns that page's listing (None on a fetch error) and changes no file |
| `VimeoCleaner.VimeoManager.DownloadVideo` | vimeo_cleaner.py:85-114 | the step-by-step transfer (open, write, remove on failure) has exactly the effect of `DownloadStep`; on failure the target path is absent |
| `VimeoCleaner.VimeoManager.DeleteVideo` | vimeo_cleaner.py:116-127 | has exactly the effect of `DeleteStep`; success iff status 204 |
| `VimeoCleaner.VimeoManager.ProcessVideo` | vimeo_cleaner.py:140-164 | the loop body for one video has exactly the effect of `ItemStep` |
| `VimeoCleaner.VimeoManager.ProcessPage` | vimeo_cleaner.py:140-164 | the loop over one page's videos has exactly the effect of `ItemsStep` |
| `VimeoCleaner.VimeoManager.ProcessVideos` | vimeo_cleaner.py:129-168 | the loop ends in the state `Run` gives, and so keeps every promise of `Run`: counters, deletes, listing order, download order, gating, no torn file |

## Left out

- Logging and its configuration, environment loading and validation, and creating the download directory: side output and configuration only.
- The HTTP session and its retry policy (3 retries, backoff, statuses 429/500/502/503/504): urllib3 enforces them and they are not visible. A transfer is a single abstract outcome, and no retry bound is claimed.
- The streaming loop, chunk writes, `content-length` and the progress bar: bytes are not modelled. A transfer either completes or fails before or after creating the file.
- The Vimeo client calls: they are oracles. The listing oracle does not react to deletes. The real service pages by offset over the current catalog, so deleting videos on page n can shift later videos onto page n, which the loop has already passed. That effect is not modelled.
- Eligibility.ParseYear: reads only the leading `YYYY-` field (and rejects year 0). A timestamp that is malformed after that field, or the basic `YYYYMMDD` form that `datetime.fromisoformat` accepts from Python 3.11 on, is treated differently from full ISO-8601 parsing.
- JSON values of the wrong type (a null `name`, a non-list `download`): a key is either absent or holds a value of the expected type. In the source such values raise inside the `try` block and count as errors.
- A process killed mid-transfer: the exception handler never runs and a partial file stays. `Downloader.LeftoverTrusted` shows that the next run then reports success for it, and `Orchestrator.LocalFileDeletedWithoutTransfer` that it then requests the delete of the remote copy.
- Paths are POSIX paths: `os.path.join` is modelled as `posixpath.join`. On Windows `ntpath.join` also treats `\` and a drive prefix (a stem such as `C:x`) specially, and only '/' is replaced in the stem, so `Downloader.TargetPath` and `Downloader.TargetPathInjective` do not hold there.
- Paths are compared as exact strings, as on a case-sensitive file system. On a case-insensitive one (the macOS and Windows defaults) the stems "Intro" and "intro" name the same file, so the second video meets the skip rule and its remote copy is deleted without a transfer, as `Orchestrator.DuplicateStemDeletedWithoutTransfer` shows for equal stems.
- The removal of a partial file never fails. If `os.remove` raises, the exception leaves `download_video`, the video counts as an error in the `except` branch of the loop, and the partial file stays; `Downloader.DownloadStep` and `Orchestrator.RunSafe` do not cover that case (no torn file).
- The `__main__` entry point and the default `year=2022`: `ProcessVideos` takes the year as a parameter.
