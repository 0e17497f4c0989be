/**
 * `VimeoManager`: the object that lists pages, downloads into its download directory and
 * deletes remote videos. The directory contents and the event trace are its mutable state;
 * each method is proved to change them as the corresponding function of the model does.
 */
module VimeoCleaner {
  import opened Types
  import opened Catalog
  import opened Eligibility
  import opened Downloader
  import opened Orchestrator

  class VimeoManager {
    const env: Env
    var files: map<string, FileState>
    var trace: seq<Event>

    /** The local world this manager has produced so far. */
    function State(): World
      reads this
    {
      World(files, trace)
    }

    /** A manager over an already configured environment and an existing download directory. */
    constructor (env: Env, files: map<string, FileState>)
      ensures this.env == env && this.files == files && trace == []
    {
      this.env := env;
      this.files := files;
      trace := [];
    }

    /** `_get_videos(page)`: one listing request; a fetch error yields None. */
    method GetVideos(page: nat) returns (videos: Listing)
      modifies this
      ensures videos == ListPage(env.pages, page)
      ensures files == old(files) && trace == old(trace) + [List(page)]
    {
      videos := ListPage(env.pages, page);
      trace := trace + [List(page)];
    }

    /** `download_video(link, name)`: skip an existing file, else transfer and clean up on failure. */
    method DownloadVideo(downloadLink: string, videoName: string) returns (ok: bool)
      modifies this
      ensures (State(), ok) == DownloadStep(env, old(State()), downloadLink, videoName)
      ensures !ok ==> TargetPath(env.downloadDir, videoName) !in files
      ensures NoTorn(old(files)) ==> NoTorn(files)
    {
      var filePath := TargetPath(env.downloadDir, videoName);
      if filePath in files {
        trace := trace + [Download(videoName, false, true)];
        return true;
      }
      ok := true;
      match env.transferAt(|trace|, downloadLink) {
        case FailedBeforeOpen =>
          ok := false;
        case FailedAfterOpen =>
          files := files[filePath := Partial];   // opened, then the stream broke
          ok := false;
        case Completed =>
          files := files[filePath := Partial];   // opened
          files := files[filePath := Complete];  // every chunk written
      }
      // the exception handler removes whatever was written
      if !ok && filePath in files {
        files := files - {filePath};
      }
      assert files == if ok then old(files)[filePath := Complete] else old(files);
      trace := trace + [Download(videoName, true, ok)];
    }

    /** `delete_video(uri)`: one delete request; success only on status 204. */
    method DeleteVideo(videoUri: string) returns (ok: bool)
      modifies this
      ensures (State(), ok) == DeleteStep(env, old(State()), videoUri)
      ensures ok <==> env.deleteAt(|old(trace)|, videoUri) == Status(NoContent)
    {
      var reply := env.deleteAt(|trace|, videoUri);
      ok := DeleteSucceeded(reply);
      trace := trace + [Delete(videoUri, ok)];
    }

    /** The body of the loop over a page's videos, for one video: the try block and its handler. */
    method ProcessVideo(video: Video, year: int, processed0: nat, errors0: nat) returns (processed: nat, errors: nat)
      modifies this
      ensures Machine(State(), processed, errors) == ItemStep(env, year, Machine(old(State()), processed0, errors0), video)
    {
      processed, errors := processed0, errors0;
      match Classify(video, year) {
        case Skip =>
        case Reject(_) =>
          errors := errors + 1;
        case Migrate(videoUri, videoName, downloadLink) =>
          var downloaded := DownloadVideo(downloadLink, videoName);
          if downloaded {
            var deleted := DeleteVideo(videoUri);
            if deleted {
              processed := processed + 1;
            } else {
              errors := errors + 1;
            }
          } else {
            errors := errors + 1;
          }
      }
    }

    /** The loop over the videos of one listed page, in listing order. */
    method ProcessPage(items: seq<Video>, year: int, processed0: nat, errors0: nat) returns (processed: nat, errors: nat)
      modifies this
      ensures Machine(State(), processed, errors) == ItemsStep(env, year, Machine(old(State()), processed0, errors0), items)
    {
      processed, errors := processed0, errors0;
      ghost var start := Machine(State(), processed, errors);
      for i := 0 to |items|
        invariant ItemsStep(env, year, Machine(State(), processed, errors), items[i..]) == ItemsStep(env, year, start, items)
      {
        assert items[i..] == [items[i]] + items[i + 1..];
        processed, errors := ProcessVideo(items[i], year, processed, errors);
      }
    }

    /**
     * `process_videos(year)`: list pages 1, 2, ... until a listing fails or is empty; for
     * each video of the year download it and, only if that succeeded, delete it remotely.
     */
    method ProcessVideos(year: int) returns (processed: nat, errors: nat)
      modifies this
      ensures Machine(State(), processed, errors) == Run(env, year, old(State()))
      ensures RunPromises(env, year, old(State()), Machine(State(), processed, errors))
    {
      ghost var w0 := State();
      var page := 1;
      processed, errors := 0, 0;
      while true
        invariant 1 <= page <= |env.pages| + 1
        invariant RunFrom(env, year, Machine(State(), processed, errors), page) == Run(env, year, w0)
        decreases |env.pages| + 1 - page
      {
        var videos := GetVideos(page);
        if videos.None? || |videos.value| == 0 {
          break;
        }
        processed, errors := ProcessPage(videos.value, year, processed, errors);
        page := page + 1;
      }
    }
  }
}
