/**
 * The asset downloader over an abstract download directory: the target path, the skip rule
 * for an existing file, and the removal of a partially written file when a transfer fails.
 */
module Downloader {
  import opened Types

  const Extension := ".mp4"

  /** The directory part a relative name is appended to. */
  function DirPrefix(dir: string): string
  {
    if dir == [] || dir[|dir| - 1] == '/' then dir else dir + "/"
  }

  /**
   * `os.path.join(a, b)` for two POSIX path components: an absolute `b` replaces `a`, a
   * relative one is appended after exactly one separator (none after an empty `a`).
   */
  function JoinPath(a: string, b: string): (p: string)
    ensures |b| > 0 && b[0] == '/' ==> p == b
    ensures !(|b| > 0 && b[0] == '/') ==> p == DirPrefix(a) + b
    ensures a == [] ==> p == b
  {
    if |b| > 0 && b[0] == '/' then b
    else if a == [] || a[|a| - 1] == '/' then a + b
    else a + "/" + b
  }

  /**
   * Where the file of a video with file-name stem `name` is written; a stem without '/'
   * (every sanitised one) lands directly inside the download directory.
   */
  function TargetPath(dir: string, name: string): (p: string)
    ensures '/' !in name ==> p == DirPrefix(dir) + name + Extension
  {
    JoinPath(dir, name + Extension)
  }

  /** Distinct stems without '/' give distinct target paths. */
  lemma {:induction false} TargetPathInjective(dir: string, n1: string, n2: string)
    requires '/' !in n1 && '/' !in n2
    requires TargetPath(dir, n1) == TargetPath(dir, n2)
    ensures n1 == n2
  {
    var p := DirPrefix(dir);
    var s1, s2 := p + n1 + Extension, p + n2 + Extension;
    assert |n1| == |n2|;
    forall i | 0 <= i < |n1| ensures n1[i] == n2[i] {
      assert s1[|p| + i] == n1[i];
      assert s2[|p| + i] == n2[i];
    }
  }

  /** No file in the directory is a torn leftover of a broken transfer. */
  ghost predicate NoTorn(files: map<string, FileState>)
  {
    forall p :: p in files ==> files[p] == Complete
  }

  /**
   * `download_video(link, name)`: when the target file exists, report success and change
   * nothing; otherwise transfer, keeping the file on success and removing whatever was
   * written on failure.
   */
  function DownloadStep(env: Env, w: World, link: string, name: string): (r: (World, bool))
    ensures var path := TargetPath(env.downloadDir, name);
      && (path in w.files ==> r.1 && r.0.files == w.files)
      && (path !in w.files ==> (r.1 <==> env.transferAt(|w.trace|, link) == Completed))
      && (r.1 ==> path in r.0.files && (path !in w.files ==> r.0.files[path] == Complete))
      && (!r.1 ==> path !in r.0.files)
      && r.0.files - {path} == w.files - {path}
      && r.0.trace == w.trace + [Download(name, path !in w.files, r.1)]
    ensures NoTorn(w.files) ==> NoTorn(r.0.files)
  {
    var path := TargetPath(env.downloadDir, name);
    if path in w.files then
      (w.(trace := w.trace + [Download(name, false, true)]), true)
    else
      var ok := env.transferAt(|w.trace|, link) == Completed;
      var files := if ok then w.files[path := Complete] else w.files;
      (World(files, w.trace + [Download(name, true, ok)]), ok)
  }

  /** A second download of the same stem after a successful first one makes no transfer and changes no file. */
  lemma DownloadTwiceTransfersOnce(env: Env, w: World, link1: string, link2: string, name: string)
    requires DownloadStep(env, w, link1, name).1
    ensures var w1 := DownloadStep(env, w, link1, name).0;
      && DownloadStep(env, w1, link2, name).1
      && DownloadStep(env, w1, link2, name).0.files == w1.files
      && DownloadStep(env, w1, link2, name).0.trace == w1.trace + [Download(name, false, true)]
  {
  }

  /** The skip rule trusts any existing file: a torn leftover is reported as a successful download. */
  lemma LeftoverTrusted(env: Env, w: World, link: string, name: string)
    requires TargetPath(env.downloadDir, name) in w.files
    requires w.files[TargetPath(env.downloadDir, name)] == Partial
    ensures DownloadStep(env, w, link, name).1
    ensures DownloadStep(env, w, link, name).0.files[TargetPath(env.downloadDir, name)] == Partial
  {
  }
}
