/**
 * The crawl command: which query to run, which directory to save into, and
 * the loop that saves each found paper under its normalised title unless a
 * file of that name already exists, counting what was saved, skipped and
 * failed. The output directory's contents are a set of file names and each
 * download is an outcome supplied from outside.
 */
module CrawlService {
  import opened Wrappers
  import opened Text
  import opened Storage
  import opened ArxivClient

  // ---------------------------------------------------------------------
  // Choosing the query and the directory.

  /** `resolve_query`: the stripped command-line query when it is not blank,
      else the stripped last query when that is not blank, else an error. */
  function ResolveQuery(cliQuery: Option<string>, lastQuery: string): (r: Result<string>)
    ensures r.Err? <==> (cliQuery.None? || Strip(cliQuery.value) == "") && Strip(lastQuery) == ""
    ensures r.Ok? && cliQuery.Some? && Strip(cliQuery.value) != "" ==> r.value == Strip(cliQuery.value)
    ensures r.Ok? && (cliQuery.None? || Strip(cliQuery.value) == "") ==> r.value == Strip(lastQuery)
  {
    var query := Strip(if cliQuery.Some? then cliQuery.value else "");
    if query != "" then Ok(query)
    else
      var fallback := Strip(lastQuery);
      if fallback != "" then Ok(fallback)
      else Err("ValueError: Missing query. Use --query at least once before using fallback.")
  }

  /** A resolved query is never blank and already stripped. */
  lemma ResolvedQueryStripped(cliQuery: Option<string>, lastQuery: string)
    requires ResolveQuery(cliQuery, lastQuery).Ok?
    ensures var q := ResolveQuery(cliQuery, lastQuery).value;
      q != "" && Strip(q) == q
  {
    TrimBothTwice(if cliQuery.Some? then cliQuery.value else "", IsSpace);
    TrimBothTwice(lastQuery, IsSpace);
  }

  /** The directory `prepare_output_dir` hands to `resolve_output_dir`: the
      stripped command-line value when it is not blank, otherwise the
      default exactly as given. */
  function SelectOutputDir(cliOutputDir: Option<string>, defaultOutputDir: string): (r: string)
    ensures cliOutputDir.Some? && Strip(cliOutputDir.value) != "" ==> r == Strip(cliOutputDir.value)
    ensures (cliOutputDir.None? || Strip(cliOutputDir.value) == "") ==> r == defaultOutputDir
  {
    var selected := Strip(if cliOutputDir.Some? then cliOutputDir.value else "");
    if selected != "" then selected else defaultOutputDir
  }

  // ---------------------------------------------------------------------
  // The crawl loop.

  datatype Status = Skip | Saved | Failed

  /** One progress notification: the status, the paper and the file name
      within the output directory. */
  datatype Progress = Progress(status: Status, paper: ArxivPaper, target: string)

  /** How a download ended: the file was written, or it failed, possibly
      leaving a partial file behind when removing it failed too. */
  datatype DownloadOutcome = Downloaded | DownloadFailed(leftFile: bool)

  /** The outcome of downloading the paper at a position to a file name. */
  type Downloader = (nat, ArxivPaper, string) -> DownloadOutcome

  /** The file name a paper is saved under (the crawl uses `TargetOf`). */
  type Namer = ArxivPaper -> string

  /** The notifications so far and the file names present. */
  datatype CrawlTrace = CrawlTrace(log: seq<Progress>, files: set<string>)

  function TargetOf(p: ArxivPaper): string {
    NormalizeTitleToFilename(p.title)
  }

  /** Handling the paper at position `i`: an existing file is skipped
      without downloading; otherwise the download decides. */
  function Step(t: CrawlTrace, i: nat, p: ArxivPaper, target: Namer, download: Downloader): CrawlTrace {
    var name := target(p);
    if name in t.files then CrawlTrace(t.log + [Progress(Skip, p, name)], t.files)
    else
      match download(i, p, name)
      case Downloaded => CrawlTrace(t.log + [Progress(Saved, p, name)], t.files + {name})
      case DownloadFailed(leftFile) =>
        CrawlTrace(t.log + [Progress(Failed, p, name)], if leftFile then t.files + {name} else t.files)
  }

  /** The crawl of `papers` starting from the files in `files0`. */
  function Trace(papers: seq<ArxivPaper>, files0: set<string>, target: Namer, download: Downloader): CrawlTrace
    decreases |papers|
  {
    if papers == [] then CrawlTrace([], files0)
    else
      var n := |papers| - 1;
      Step(Trace(papers[..n], files0, target, download), n, papers[n], target, download)
  }

  /** How many notifications carry a status. */
  function CountStatus(log: seq<Progress>, st: Status): nat
    decreases |log|
  {
    if log == [] then 0
    else CountStatus(log[..|log| - 1], st) + (if log[|log| - 1].status == st then 1 else 0)
  }

  lemma CountSnoc(log: seq<Progress>, x: Progress, st: Status)
    ensures CountStatus(log + [x], st) == CountStatus(log, st) + (if x.status == st then 1 else 0)
  {
    assert (log + [x])[..|log|] == log;
  }

  /** Every notification has exactly one of the three statuses. */
  lemma {:induction false} CountsAddUp(log: seq<Progress>)
    ensures CountStatus(log, Saved) + CountStatus(log, Skip) + CountStatus(log, Failed) == |log|
    decreases |log|
  {
    if log != [] {
      CountsAddUp(log[..|log| - 1]);
    }
  }

  lemma TraceNext(papers: seq<ArxivPaper>, files0: set<string>, target: Namer, download: Downloader, i: nat)
    requires i < |papers|
    ensures Trace(papers[..i + 1], files0, target, download)
      == Step(Trace(papers[..i], files0, target, download), i, papers[i], target, download)
  {
    assert papers[..i + 1][..i] == papers[..i];
  }

  /** One notification per paper, in order, naming the paper and its file;
      files are only ever added. */
  lemma {:induction false} TraceShape(papers: seq<ArxivPaper>, files0: set<string>, target: Namer, download: Downloader)
    ensures var t := Trace(papers, files0, target, download);
      && |t.log| == |papers|
      && (forall i :: 0 <= i < |papers| ==> t.log[i].paper == papers[i] && t.log[i].target == target(papers[i]))
      && files0 <= t.files
    decreases |papers|
  {
    if papers != [] {
      var n := |papers| - 1;
      TraceShape(papers[..n], files0, target, download);
    }
  }

  /** The crawl of a prefix is a prefix of the crawl, and its files are a
      subset of the final ones. */
  lemma {:induction false} TracePrefix(papers: seq<ArxivPaper>, files0: set<string>, target: Namer, download: Downloader, k: nat)
    requires k <= |papers|
    ensures var t := Trace(papers, files0, target, download);
      var u := Trace(papers[..k], files0, target, download);
      && |u.log| == k <= |t.log|
      && u.log == t.log[..k]
      && u.files <= t.files
    decreases |papers|
  {
    TraceShape(papers, files0, target, download);
    TraceShape(papers[..k], files0, target, download);
    if k < |papers| {
      var n := |papers| - 1;
      assert papers[..n][..k] == papers[..k];
      TracePrefix(papers[..n], files0, target, download, k);
    } else {
      assert papers[..k] == papers;
    }
  }

  /** A paper is skipped exactly when its file existed when its turn came. */
  lemma SkipIffExisting(papers: seq<ArxivPaper>, files0: set<string>, target: Namer, download: Downloader, i: nat)
    requires i < |papers|
    ensures var log := Trace(papers, files0, target, download).log;
      |log| == |papers|
      && (log[i].status == Skip <==> target(papers[i]) in Trace(papers[..i], files0, target, download).files)
  {
    TraceShape(papers, files0, target, download);
    TracePrefix(papers, files0, target, download, i + 1);
    TraceNext(papers, files0, target, download, i);
    TraceShape(papers[..i], files0, target, download);
  }

  /** A paper that is saved leaves its file in the directory. */
  lemma SavedFileExists(papers: seq<ArxivPaper>, files0: set<string>, target: Namer, download: Downloader, i: nat)
    requires i < |papers|
    ensures var t := Trace(papers, files0, target, download);
      |t.log| == |papers|
      && (t.log[i].status == Saved ==> target(papers[i]) in t.files)
  {
    TraceShape(papers, files0, target, download);
    TracePrefix(papers, files0, target, download, i + 1);
    TraceNext(papers, files0, target, download, i);
    TraceShape(papers[..i], files0, target, download);
  }

  /** Once a paper is saved, a later paper whose title normalises to the same
      file name is skipped. */
  lemma LaterDuplicateSkipped(papers: seq<ArxivPaper>, files0: set<string>, target: Namer, download: Downloader, i: nat, j: nat)
    requires i < j < |papers| && target(papers[i]) == target(papers[j])
    ensures var log := Trace(papers, files0, target, download).log;
      |log| == |papers| && (log[i].status == Saved ==> log[j].status == Skip)
  {
    var log := Trace(papers, files0, target, download).log;
    SavedFileExists(papers[..i + 1], files0, target, download, i);
    TracePrefix(papers, files0, target, download, i + 1);
    TraceShape(papers[..i + 1], files0, target, download);
    assert papers[..i + 1][..i + 1] == papers[..i + 1];
    TracePrefix(papers[..j], files0, target, download, i + 1);
    assert papers[..j][..i + 1] == papers[..i + 1];
    SkipIffExisting(papers, files0, target, download, j);
  }

  /** `CrawlReport`: counters that the loop increments in place. */
  class CrawlReport {
    var fetched: int
    var saved: int
    var skipped: int
    var failed: int

    constructor(fetched: int)
      ensures this.fetched == fetched && saved == 0 && skipped == 0 && failed == 0
    {
      this.fetched := fetched;
      saved := 0;
      skipped := 0;
      failed := 0;
    }
  }

  /** One iteration of `run_crawl`'s loop: skip an existing file, otherwise
      download; the matching counter goes up by one. */
  method HandlePaper(report: CrawlReport, log: seq<Progress>, files: set<string>, i: nat,
                     paper: ArxivPaper, target: Namer, download: Downloader)
    returns (entry: Progress, files': set<string>)
    modifies report
    ensures Step(CrawlTrace(log, files), i, paper, target, download) == CrawlTrace(log + [entry], files')
    ensures report.fetched == old(report.fetched)
    ensures report.saved == old(report.saved) + (if entry.status == Saved then 1 else 0)
    ensures report.skipped == old(report.skipped) + (if entry.status == Skip then 1 else 0)
    ensures report.failed == old(report.failed) + (if entry.status == Failed then 1 else 0)
  {
    var name := target(paper);
    files' := files;
    if name in files {
      report.skipped := report.skipped + 1;
      entry := Progress(Skip, paper, name);
    } else {
      var outcome := download(i, paper, name);
      match outcome {
        case Downloaded =>
          report.saved := report.saved + 1;
          entry := Progress(Saved, paper, name);
          files' := files + {name};
        case DownloadFailed(leftFile) =>
          report.failed := report.failed + 1;
          entry := Progress(Failed, paper, name);
          if leftFile {
            files' := files + {name};
          }
      }
    }
  }

  /** The loop of `run_crawl` over the found papers: `log` holds the
      progress notifications and `files` the directory's file names
      afterwards. The file name of each paper comes from `target`. */
  method CrawlPapers(papers: seq<ArxivPaper>, files0: set<string>, target: Namer, download: Downloader)
    returns (report: CrawlReport, log: seq<Progress>, files: set<string>)
    ensures var t := Trace(papers, files0, target, download);
      && log == t.log && files == t.files
      && report.fetched == |papers|
      && report.saved == CountStatus(log, Saved)
      && report.skipped == CountStatus(log, Skip)
      && report.failed == CountStatus(log, Failed)
  {
    report := new CrawlReport(|papers|);
    log, files := [], files0;
    var i := 0;
    while i < |papers|
      invariant 0 <= i <= |papers|
      invariant Trace(papers[..i], files0, target, download) == CrawlTrace(log, files)
      invariant report.fetched == |papers|
      invariant report.saved == CountStatus(log, Saved)
      invariant report.skipped == CountStatus(log, Skip)
      invariant report.failed == CountStatus(log, Failed)
    {
      TraceNext(papers, files0, target, download, i);
      var entry;
      entry, files := HandlePaper(report, log, files, i, papers[i], target, download);
      CountSnoc(log, entry, Saved);
      CountSnoc(log, entry, Skip);
      CountSnoc(log, entry, Failed);
      log := log + [entry];
      i := i + 1;
    }
    assert papers[..i] == papers;
  }

  /** `run_crawl`: searches, then handles each paper in order. A failed
      search propagates its error. */
  method RunCrawl(query: string, maxResults: int, fetch: Query -> Fetch,
                  files0: set<string>, download: Downloader)
    returns (r: Result<CrawlReport>, log: seq<Progress>, files: set<string>)
    ensures var found := SearchResult(query, maxResults, "submittedDate", "descending", fetch);
      && (found.Err? ==> r == Err(found.error) && log == [] && files == files0)
      && (found.Ok? ==>
            var t := Trace(found.value, files0, TargetOf, download);
            && r.Ok? && log == t.log && files == t.files
            && r.value.fetched == |found.value|
            && r.value.saved == CountStatus(log, Saved)
            && r.value.skipped == CountStatus(log, Skip)
            && r.value.failed == CountStatus(log, Failed))
  {
    var found := SearchArxiv(query, maxResults, "submittedDate", "descending", fetch);
    if found.Err? {
      return Err(found.error), [], files0;
    }
    var report;
    report, log, files := CrawlPapers(found.value, files0, TargetOf, download);
    r := Ok(report);
  }

  /** After a crawl every found paper was counted exactly once:
      saved + skipped + failed == fetched. */
  lemma CrawlCountsAddUp(papers: seq<ArxivPaper>, files0: set<string>, target: Namer, download: Downloader)
    ensures var log := Trace(papers, files0, target, download).log;
      CountStatus(log, Saved) + CountStatus(log, Skip) + CountStatus(log, Failed) == |papers|
  {
    TraceShape(papers, files0, target, download);
    CountsAddUp(Trace(papers, files0, target, download).log);
  }
}
