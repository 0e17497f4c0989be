/**
 * The migration orchestrator as functions over values: one item, the items of one page, and
 * the pagination loop, with the properties of a whole run proved about them.
 */
module Orchestrator {
  import opened Types
  import opened Catalog
  import opened Eligibility
  import opened Downloader

  /** The state of a run: the local world and the two counters. */
  datatype Machine = Machine(world: World, processed: nat, errors: nat)

  /**
   * The events one item adds to the trace: none when it is skipped or rejected; otherwise a
   * download of its stem, and, only when that download succeeded, a delete of its uri.
   */
  ghost predicate ItemEvents(d: Decision, seg: seq<Event>)
  {
    match d
    case Migrate(uri, name, _) =>
      || (|seg| == 1 && seg[0].Download? && seg[0].name == name && !seg[0].ok)
      || (|seg| == 2 && seg[0].Download? && seg[0].name == name && seg[0].ok && seg[1].Delete? && seg[1].uri == uri)
    case _ => seg == []
  }

  /** The body of the loop over a page's videos, for one video. */
  function ItemStep(env: Env, year: int, m: Machine, v: Video): (r: Machine)
    ensures r.processed + r.errors == m.processed + m.errors + (if Classify(v, year).Skip? then 0 else 1)
    ensures r.processed >= m.processed && r.errors >= m.errors
  {
    match Classify(v, year)
    case Skip => m
    case Reject(_) => m.(errors := m.errors + 1)
    case Migrate(uri, name, link) =>
      var (w1, downloaded) := DownloadStep(env, m.world, link, name);
      if !downloaded then Machine(w1, m.processed, m.errors + 1)
      else
        var (w2, deleted) := DeleteStep(env, w1, uri);
        if deleted then Machine(w2, m.processed + 1, m.errors) else Machine(w2, m.processed, m.errors + 1)
  }

  /**
   * What one video does to the trace and the directory: the events of `ItemEvents`, a
   * delete only once the local file exists, `processed` raised exactly by a successful
   * delete, and no torn file.
   */
  lemma ItemStepOutcome(env: Env, year: int, m: Machine, v: Video)
    ensures var r := ItemStep(env, year, m, v); var t, t' := m.world.trace, r.world.trace;
      && |t| <= |t'| && t'[..|t|] == t
      && ItemEvents(Classify(v, year), t'[|t|..])
      && (!Classify(v, year).Migrate? ==> r.world == m.world)
      && (|t'| == |t| + 2 ==> TargetPath(env.downloadDir, Classify(v, year).name) in r.world.files)
      && (r.processed > m.processed <==> |t'| == |t| + 2 && t'[|t| + 1].ok)
    ensures NoTorn(m.world.files) ==> NoTorn(ItemStep(env, year, m, v).world.files)
  {
  }

  /** The loop over a page's videos, in listing order. */
  function ItemsStep(env: Env, year: int, m: Machine, vs: seq<Video>): (r: Machine)
    ensures r.processed >= m.processed && r.errors >= m.errors
    decreases |vs|
  {
    if vs == [] then m else ItemsStep(env, year, ItemStep(env, year, m, vs[0]), vs[1..])
  }

  /** The pagination loop from page `page` on: list the page, stop on a failed or empty listing, else process it and go on. */
  function RunFrom(env: Env, year: int, m: Machine, page: nat): (r: Machine)
    requires page >= 1
    ensures r.processed >= m.processed && r.errors >= m.errors
    decreases |env.pages| + 1 - page
  {
    var listed := m.(world := m.world.(trace := m.world.trace + [List(page)]));
    var l := ListPage(env.pages, page);
    if Ends(l) then listed else RunFrom(env, year, ItemsStep(env, year, listed, l.value), page + 1)
  }

  /** `process_videos(year)` from a given local world: page 1, both counters 0. */
  function Run(env: Env, year: int, w: World): (r: Machine)
    ensures RunPromises(env, year, w, r)
  {
    RunSafe(env, year, Machine(w, 0, 0), 1);
    RunCounts(env, year, Machine(w, 0, 0), 1);
    RunListsPagesInOrder(env, year, Machine(w, 0, 0), 1);
    PagesListedRange(env.pages, 1);
    RunDownloadsInOrder(env, year, Machine(w, 0, 0), 1);
    RunFrom(env, year, Machine(w, 0, 0), 1)
  }

  // ----- What a run visits -----

  /** The first page, from `page` on, whose listing ends the loop. */
  function LastPage(pages: seq<Listing>, page: nat): (k: nat)
    requires page >= 1
    ensures page <= k && (page <= |pages| + 1 ==> k <= |pages| + 1)
    decreases |pages| + 1 - page
  {
    if Ends(ListPage(pages, page)) then page else LastPage(pages, page + 1)
  }

  /** The stopping page is the first page, from `page` on, whose listing fails or is empty. */
  lemma {:induction false} LastPageFirstEnd(pages: seq<Listing>, page: nat)
    requires page >= 1
    ensures Ends(ListPage(pages, LastPage(pages, page)))
    ensures forall p :: page <= p < LastPage(pages, page) ==> !Ends(ListPage(pages, p))
    decreases |pages| + 1 - page
  {
    if !Ends(ListPage(pages, page)) {
      LastPageFirstEnd(pages, page + 1);
    }
  }

  /** The videos of the pages from `page` up to the last page, in listing order. */
  function Visited(pages: seq<Listing>, page: nat): seq<Video>
    requires page >= 1
    decreases |pages| + 1 - page
  {
    var l := ListPage(pages, page);
    if Ends(l) then [] else l.value + Visited(pages, page + 1)
  }

  function PageRange(lo: nat, hi: nat): seq<nat>
    decreases hi - lo
  {
    if lo >= hi then [] else [lo] + PageRange(lo + 1, hi)
  }

  /** How many of `vs` change a counter: every video not skipped by the year filter. */
  function CountedItems(vs: seq<Video>, year: int): nat
  {
    if vs == [] then 0 else (if Classify(vs[0], year).Skip? then 0 else 1) + CountedItems(vs[1..], year)
  }

  /** The stems of the videos of `vs` that reach the download, in order. */
  function MigratedNames(vs: seq<Video>, year: int): seq<string>
  {
    if vs == [] then []
    else (if Classify(vs[0], year).Migrate? then [Classify(vs[0], year).name] else []) + MigratedNames(vs[1..], year)
  }

  /** Counting and collecting stems distribute over concatenation. */
  lemma {:induction false} CountedItemsAppend(a: seq<Video>, b: seq<Video>, year: int)
    ensures CountedItems(a + b, year) == CountedItems(a, year) + CountedItems(b, year)
    ensures MigratedNames(a + b, year) == MigratedNames(a, year) + MigratedNames(b, year)
  {
    if a != [] {
      assert (a + b)[1..] == a[1..] + b;
      CountedItemsAppend(a[1..], b, year);
    } else {
      assert a + b == b;
    }
  }

  // ----- Projections of the trace -----

  /** The pages listed, in the order they were listed. */
  function ListedPages(t: seq<Event>): seq<nat>
  {
    if t == [] then [] else ListedPages(t[..|t| - 1]) + (if t[|t| - 1].List? then [t[|t| - 1].page] else [])
  }

  /** The stems downloaded, in order. */
  function DownloadedNames(t: seq<Event>): seq<string>
  {
    if t == [] then [] else DownloadedNames(t[..|t| - 1]) + (if t[|t| - 1].Download? then [t[|t| - 1].name] else [])
  }

  /** How many deletes succeeded. */
  function Deletions(t: seq<Event>): nat
  {
    if t == [] then 0 else Deletions(t[..|t| - 1]) + (if t[|t| - 1].Delete? && t[|t| - 1].ok then 1 else 0)
  }

  /**
   * Deletes are gated on downloads: every delete directly follows a successful download,
   * and every successful download is directly followed by a delete.
   */
  ghost predicate Gated(t: seq<Event>)
  {
    && (forall i :: 0 <= i < |t| && t[i].Delete? ==> 0 < i && t[i - 1].Download? && t[i - 1].ok)
    && (forall i :: 0 <= i < |t| && t[i].Download? && t[i].ok ==> i + 1 < |t| && t[i + 1].Delete?)
  }

  /** Appending the events of one item keeps deletes gated. */
  lemma GatedAppendItem(t: seq<Event>, d: Decision, seg: seq<Event>)
    requires Gated(t) && ItemEvents(d, seg)
    ensures Gated(t + seg)
  {
  }

  /** Appending a listing event keeps deletes gated. */
  lemma GatedAppendList(t: seq<Event>, page: nat)
    requires Gated(t)
    ensures Gated(t + [List(page)])
  {
  }

  /** What appending the events of one item does to the projections of the trace. */
  lemma ProjectionsAppendItem(t: seq<Event>, d: Decision, seg: seq<Event>)
    requires ItemEvents(d, seg)
    ensures ListedPages(t + seg) == ListedPages(t)
    ensures DownloadedNames(t + seg) == DownloadedNames(t) + (if d.Migrate? then [d.name] else [])
    ensures Deletions(t + seg) == Deletions(t) + (if |seg| == 2 && seg[1].ok then 1 else 0)
  {
    if |seg| == 1 {
      assert (t + seg)[..|t|] == t;
    } else if |seg| == 2 {
      assert (t + seg)[..|t| + 1] == t + [seg[0]];
      assert (t + [seg[0]])[..|t|] == t;
    } else {
      assert t + seg == t;
    }
  }

  /** One item keeps the trace projections in step with the counters and the listing order. */
  lemma ItemStepProjections(env: Env, year: int, m: Machine, v: Video)
    ensures var r := ItemStep(env, year, m, v);
      && ListedPages(r.world.trace) == ListedPages(m.world.trace)
      && DownloadedNames(r.world.trace) == DownloadedNames(m.world.trace) + MigratedNames([v], year)
      && r.processed + Deletions(m.world.trace) == m.processed + Deletions(r.world.trace)
  {
    var r := ItemStep(env, year, m, v);
    var t, t' := m.world.trace, r.world.trace;
    ItemStepOutcome(env, year, m, v);
    var seg := t'[|t|..];
    assert t' == t + seg;
    ProjectionsAppendItem(t, Classify(v, year), seg);
    assert MigratedNames([v], year) == (if Classify(v, year).Migrate? then [Classify(v, year).name] else []);
  }

  // ----- Properties of the loop over one page -----

  lemma {:induction false} ItemsSafe(env: Env, year: int, m: Machine, vs: seq<Video>)
    ensures Gated(m.world.trace) ==> Gated(ItemsStep(env, year, m, vs).world.trace)
    ensures NoTorn(m.world.files) ==> NoTorn(ItemsStep(env, year, m, vs).world.files)
    decreases |vs|
  {
    if vs != [] {
      var m1 := ItemStep(env, year, m, vs[0]);
      ItemStepOutcome(env, year, m, vs[0]);
      if Gated(m.world.trace) {
        assert m1.world.trace == m.world.trace + m1.world.trace[|m.world.trace|..];
        GatedAppendItem(m.world.trace, Classify(vs[0], year), m1.world.trace[|m.world.trace|..]);
      }
      ItemsSafe(env, year, m1, vs[1..]);
    }
  }

  lemma {:induction false} ItemsCounts(env: Env, year: int, m: Machine, vs: seq<Video>)
    ensures var r := ItemsStep(env, year, m, vs);
      && r.processed + r.errors == m.processed + m.errors + CountedItems(vs, year)
      && r.processed + Deletions(m.world.trace) == m.processed + Deletions(r.world.trace)
    decreases |vs|
  {
    if vs != [] {
      var m1 := ItemStep(env, year, m, vs[0]);
      ItemStepProjections(env, year, m, vs[0]);
      ItemsCounts(env, year, m1, vs[1..]);
    }
  }

  lemma {:induction false} ItemsOrder(env: Env, year: int, m: Machine, vs: seq<Video>)
    ensures var r := ItemsStep(env, year, m, vs);
      && ListedPages(r.world.trace) == ListedPages(m.world.trace)
      && DownloadedNames(r.world.trace) == DownloadedNames(m.world.trace) + MigratedNames(vs, year)
    decreases |vs|
  {
    if vs != [] {
      var m1 := ItemStep(env, year, m, vs[0]);
      ItemStepProjections(env, year, m, vs[0]);
      ItemsOrder(env, year, m1, vs[1..]);
      assert vs == [vs[0]] + vs[1..];
      CountedItemsAppend([vs[0]], vs[1..], year);
    }
  }

  // ----- Properties of a whole run -----

  /**
   * One round of the pagination loop on a non-empty page: list it, then process its videos.
   * Gives the state the loop goes on from, and what the round did.
   */
  lemma PageRound(env: Env, year: int, m: Machine, page: nat) returns (next: Machine)
    requires page >= 1 && !Ends(ListPage(env.pages, page))
    ensures RunFrom(env, year, m, page) == RunFrom(env, year, next, page + 1)
    ensures var vs := ListPage(env.pages, page).value;
      && next.processed + next.errors == m.processed + m.errors + CountedItems(vs, year)
      && next.processed + Deletions(m.world.trace) == m.processed + Deletions(next.world.trace)
      && ListedPages(next.world.trace) == ListedPages(m.world.trace) + [page]
      && DownloadedNames(next.world.trace) == DownloadedNames(m.world.trace) + MigratedNames(vs, year)
    ensures Gated(m.world.trace) ==> Gated(next.world.trace)
    ensures NoTorn(m.world.files) ==> NoTorn(next.world.files)
  {
    var t := m.world.trace;
    var listed := m.(world := m.world.(trace := t + [List(page)]));
    var vs := ListPage(env.pages, page).value;
    next := ItemsStep(env, year, listed, vs);
    assert (t + [List(page)])[..|t|] == t;
    if Gated(t) {
      GatedAppendList(t, page);
    }
    ItemsSafe(env, year, listed, vs);
    ItemsCounts(env, year, listed, vs);
    ItemsOrder(env, year, listed, vs);
  }

  /** No delete without a preceding successful download, and no torn file, over the whole run. */
  lemma {:induction false} RunSafe(env: Env, year: int, m: Machine, page: nat)
    requires page >= 1
    ensures Gated(m.world.trace) ==> Gated(RunFrom(env, year, m, page).world.trace)
    ensures NoTorn(m.world.files) ==> NoTorn(RunFrom(env, year, m, page).world.files)
    decreases |env.pages| + 1 - page
  {
    if Gated(m.world.trace) {
      GatedAppendList(m.world.trace, page);
    }
    if !Ends(ListPage(env.pages, page)) {
      var next := PageRound(env, year, m, page);
      RunSafe(env, year, next, page + 1);
    }
  }

  /**
   * Every visited video outside the skipped years adds exactly one to one counter, and
   * `processed` grows exactly by the number of successful deletes.
   */
  lemma {:induction false} RunCounts(env: Env, year: int, m: Machine, page: nat)
    requires page >= 1
    ensures var r := RunFrom(env, year, m, page);
      && r.processed + r.errors == m.processed + m.errors + CountedItems(Visited(env.pages, page), year)
      && r.processed + Deletions(m.world.trace) == m.processed + Deletions(r.world.trace)
    decreases |env.pages| + 1 - page
  {
    var t := m.world.trace;
    if !Ends(ListPage(env.pages, page)) {
      var next := PageRound(env, year, m, page);
      RunCounts(env, year, next, page + 1);
      CountedItemsAppend(ListPage(env.pages, page).value, Visited(env.pages, page + 1), year);
    } else {
      assert (t + [List(page)])[..|t|] == t;
    }
  }

  /** Listing one more page adds exactly that page to the listed pages. */
  lemma ListedPagesAppendList(t: seq<Event>, page: nat)
    ensures ListedPages(t + [List(page)]) == ListedPages(t) + [page]
  {
    assert (t + [List(page)])[..|t|] == t;
  }

  /** The pages a run from `page` lists: `page`, and the following ones unless `page` ends the run. */
  function PagesListed(pages: seq<Listing>, page: nat): seq<nat>
    requires page >= 1
    decreases |pages| + 1 - page
  {
    [page] + if Ends(ListPage(pages, page)) then [] else PagesListed(pages, page + 1)
  }

  /** The pages listed are consecutive, from `page` up to the stopping page. */
  lemma {:induction false} PagesListedRange(pages: seq<Listing>, page: nat)
    requires page >= 1
    ensures PagesListed(pages, page) == PageRange(page, LastPage(pages, page) + 1)
    decreases |pages| + 1 - page
  {
    if !Ends(ListPage(pages, page)) {
      PagesListedRange(pages, page + 1);
    }
  }

  /** A page whose listing fails or is empty is still listed, and ends the run. */
  lemma RunStopsListed(env: Env, year: int, m: Machine, page: nat)
    requires page >= 1 && Ends(ListPage(env.pages, page))
    ensures ListedPages(RunFrom(env, year, m, page).world.trace) == ListedPages(m.world.trace) + [page]
  {
    ListedPagesAppendList(m.world.trace, page);
  }

  /** Pages are listed as page, page + 1, ... up to the first failed or empty listing. */
  lemma {:induction false} RunListsPagesInOrder(env: Env, year: int, m: Machine, page: nat)
    requires page >= 1
    ensures ListedPages(RunFrom(env, year, m, page).world.trace)
            == ListedPages(m.world.trace) + PagesListed(env.pages, page)
    decreases |env.pages| + 1 - page
  {
    if !Ends(ListPage(env.pages, page)) {
      var t := m.world.trace;
      var listed := m.(world := m.world.(trace := t + [List(page)]));
      var vs := ListPage(env.pages, page).value;
      var next := ItemsStep(env, year, listed, vs);
      ItemsOrder(env, year, listed, vs);
      ListedPagesAppendList(t, page);
      RunListsPagesInOrder(env, year, next, page + 1);
      var rest := PagesListed(env.pages, page + 1);
      assert ListedPages(t) + [page] + rest == ListedPages(t) + ([page] + rest);
    } else {
      RunStopsListed(env, year, m, page);
    }
  }

  /** The stems downloaded are those of the videos on the pages before the stopping page, in listing order. */
  lemma {:induction false} RunDownloadsInOrder(env: Env, year: int, m: Machine, page: nat)
    requires page >= 1
    ensures DownloadedNames(RunFrom(env, year, m, page).world.trace)
            == DownloadedNames(m.world.trace) + MigratedNames(Visited(env.pages, page), year)
    decreases |env.pages| + 1 - page
  {
    var t := m.world.trace;
    assert (t + [List(page)])[..|t|] == t;
    if !Ends(ListPage(env.pages, page)) {
      var listed := m.(world := m.world.(trace := t + [List(page)]));
      var vs := ListPage(env.pages, page).value;
      var next := ItemsStep(env, year, listed, vs);
      ItemsOrder(env, year, listed, vs);
      RunDownloadsInOrder(env, year, next, page + 1);
      CountedItemsAppend(vs, Visited(env.pages, page + 1), year);
      var a, b := MigratedNames(vs, year), MigratedNames(Visited(env.pages, page + 1), year);
      assert DownloadedNames(t) + a + b == DownloadedNames(t) + (a + b);
    }
  }

  /**
   * What a run from world `w` ending in `r` promises: one counter step per visited video
   * outside the skipped years, `processed` equal to the successful deletes, pages listed from
   * 1 up to the first failed or empty listing, downloads in listing order, deletes gated on
   * downloads and no torn file.
   */
  ghost predicate RunPromises(env: Env, year: int, w: World, r: Machine)
  {
    && r.processed + r.errors == CountedItems(Visited(env.pages, 1), year)
    && r.processed + Deletions(w.trace) == Deletions(r.world.trace)
    && ListedPages(r.world.trace) == ListedPages(w.trace) + PageRange(1, LastPage(env.pages, 1) + 1)
    && DownloadedNames(r.world.trace) == DownloadedNames(w.trace) + MigratedNames(Visited(env.pages, 1), year)
    && (Gated(w.trace) ==> Gated(r.world.trace))
    && (NoTorn(w.files) ==> NoTorn(r.world.files))
  }

  /** When page 3 is the first empty or failed listing, the run lists pages 1, 2, 3 and counts only the videos of pages 1 and 2. */
  lemma StopsAtThirdPage(env: Env, year: int, w: World)
    requires !Ends(ListPage(env.pages, 1)) && !Ends(ListPage(env.pages, 2)) && Ends(ListPage(env.pages, 3))
    ensures ListedPages(Run(env, year, w).world.trace) == ListedPages(w.trace) + [1, 2, 3]
    ensures Run(env, year, w).processed + Run(env, year, w).errors
            == CountedItems(ListPage(env.pages, 1).value + ListPage(env.pages, 2).value, year)
  {
    RunListsPagesInOrder(env, year, Machine(w, 0, 0), 1);
    RunCounts(env, year, Machine(w, 0, 0), 1);
    assert PagesListed(env.pages, 3) == [3];
    assert PagesListed(env.pages, 2) == [2, 3];
    assert Visited(env.pages, 3) == [];
    assert Visited(env.pages, 2) == ListPage(env.pages, 2).value + [];
    assert ListPage(env.pages, 2).value + [] == ListPage(env.pages, 2).value;
    assert Visited(env.pages, 1) == ListPage(env.pages, 1).value + Visited(env.pages, 2);
  }

  /**
   * A migrated video whose target file already exists, whole or torn: it is reported
   * downloaded without a transfer, no file changes, and a delete of its remote copy follows,
   * which succeeds exactly when the API answers 204.
   */
  lemma LocalFileDeletedWithoutTransfer(env: Env, year: int, m: Machine, v: Video)
    requires Classify(v, year).Migrate?
    requires TargetPath(env.downloadDir, Classify(v, year).name) in m.world.files
    ensures var d, t, r := Classify(v, year), m.world.trace, ItemStep(env, year, m, v);
      var deleted := env.deleteAt(|t| + 1, d.uri) == Status(NoContent);
      && r.world.files == m.world.files
      && r.world.trace == t + [Download(d.name, false, true), Delete(d.uri, deleted)]
      && (r.processed == m.processed + 1 <==> deleted)
  {
  }

  /**
   * Two videos whose names sanitise to the same stem: once the first is downloaded, the
   * second is reported downloaded without a transfer and a delete of its remote copy is
   * requested, which succeeds exactly when the API answers 204.
   */
  lemma DuplicateStemDeletedWithoutTransfer(env: Env, year: int, m: Machine, v1: Video, v2: Video)
    requires Classify(v1, year).Migrate? && Classify(v2, year).Migrate?
    requires Classify(v1, year).name == Classify(v2, year).name
    requires |ItemStep(env, year, m, v1).world.trace| == |m.world.trace| + 2
    ensures var m1 := ItemStep(env, year, m, v1);
      var t, t' := m1.world.trace, ItemStep(env, year, m1, v2).world.trace;
      && |t'| == |t| + 2
      && t'[|t|] == Download(Classify(v2, year).name, false, true)
      && t'[|t| + 1] == Delete(Classify(v2, year).uri, env.deleteAt(|t| + 1, Classify(v2, year).uri) == Status(NoContent))
  {
    ItemStepOutcome(env, year, m, v1);
    LocalFileDeletedWithoutTransfer(env, year, ItemStep(env, year, m, v1), v2);
  }
}
