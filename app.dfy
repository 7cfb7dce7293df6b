/**
 * `run_scan` of src/paperreader_cli/app.py: every PDF of a folder is loaded,
 * looked up in the summary cache (when the cache is on), summarised on a
 * miss and stored back; the outcomes are harvested as the workers finish,
 * counting successes, failures and the tokens of the successes.
 *
 * The file list, each file's pages and the SHA-256 of its bytes are inputs;
 * the language model is the oracle `chat` and SHA-256 of the key text is
 * `digest`. Each file's processing is taken as one step at the moment its
 * worker finishes, in an order chosen freely (`:|`) among the unfinished
 * files, so the model covers every completion order.
 */
module App {
  import opened Wrappers
  import Text
  import Cache
  import CacheKey
  import Summarizer
  import PdfLoader
  import PyValue

  /** The settings `run_scan` reads. */
  datatype ScanConfig = ScanConfig(
    apiKey: string, model: string, systemPrompt: string,
    maxChars: int, chunkChars: int, profile: string,
    fileWorkers: int, chunkWorkers: int, cacheEnabled: bool)

  /** One PDF: what the PDF library reads from it, and the hex SHA-256 of
      its bytes. */
  datatype PdfFile = PdfFile(document: PdfLoader.PdfDocument, contentHash: string)

  /** What one file's worker returns: the summary written to its Markdown
      file, the chunk count, the truncation flag, the tokens spent and
      whether the summary came from the cache. */
  datatype FileResult = FileResult(
    summary: string, chunksUsed: int, truncated: bool, totalTokens: int, fromCache: bool)

  datatype ProcessReport = ProcessReport(total: nat, success: nat, failed: nat, totalTokens: int)

  const EmptyKeyError := "ValueError: API key is empty. Set it in config.yaml, env, or CLI option."

  /** The cache key of a file: the six fields that decide its summary. */
  function KeyFor(config: ScanConfig, digest: string -> string, pdf: PdfFile): string {
    CacheKey.CacheKeyOf(digest, CacheKey.Fingerprint(
      pdf.contentHash, config.model, config.systemPrompt,
      config.maxChars, config.chunkChars, config.profile))
  }

  /** The cleaned text of a document's pages before truncation. */
  function PaperText(pages: seq<string>): string {
    PdfLoader.CleanText(Text.Join(PdfLoader.NonEmptyPages(pages), "\n"))
  }

  /** The text `load_text` hands to the summariser: the cleaned text cut to
      `max_chars` when it is longer. */
  function ScanText(config: ScanConfig, pages: seq<string>): string {
    var text := PaperText(pages);
    if |text| > config.maxChars then PdfLoader.SliceTo(text, config.maxChars) else text
  }

  /** What `_process_one` returns for a readable file whose summary is not
      cached: the summary of the loaded text with its truncation flag, or
      `None` when summarising fails. */
  function FreshResult(config: ScanConfig, chat: Summarizer.Chat, pages: seq<string>): Option<FileResult>
    requires config.chunkChars >= 1
  {
    match Summarizer.PaperSummary(chat, config.systemPrompt, ScanText(config, pages), config.chunkChars, config.profile)
    case Some(s) => Some(FileResult(s.content, s.chunksUsed, |PaperText(pages)| > config.maxChars, s.totalTokens, false))
    case None => None
  }

  /** `get(key)` on `data` returns an entry (neither None nor an error). */
  predicate Holds(data: map<string, PyValue.Value>, key: string) {
    var got := Cache.Lookup(data, key);
    got.Ok? && got.value.Some?
  }

  /** Setting an entry keeps every readable entry readable and makes the
      new one readable. */
  lemma SetKeepsHolds(data: map<string, PyValue.Value>, key: string, entry: Cache.CacheEntry)
    ensures Holds(data[key := Cache.Stored(entry)], key)
    ensures forall k :: Holds(data, k) ==> Holds(data[key := Cache.Stored(entry)], k)
  {
    Cache.SetThenGet(data, key, entry);
    forall k | Holds(data, k)
      ensures Holds(data[key := Cache.Stored(entry)], k)
    {
      if k != key {
        Cache.SetKeepsOthers(data, key, entry, k);
      }
    }
  }

  // ---------------------------------------------------------------------
  // One file.

  /**
   * `_process_one`. The text is loaded first, so an unreadable PDF fails
   * even when its summary is cached. With the cache on: an error raised by
   * `get` fails the file; a hit returns the cached entry with no tokens and
   * no chat call; a miss summarises and stores the summary, its chunk count
   * and the loader's truncation flag under the same key. A failure leaves
   * the cache as it was.
   */
  method ProcessOne(config: ScanConfig, cache: Cache.SummaryCache?, chat: Summarizer.Chat,
                    digest: string -> string, pdf: PdfFile)
    returns (r: Result<FileResult>)
    requires config.chunkChars >= 1
    modifies cache
    ensures pdf.document.Unopenable? ==> r.Err?
    ensures r.Ok? && !r.value.fromCache ==>
      && pdf.document.Pages?
      && r.value.truncated == (|PaperText(pdf.document.pages)| > config.maxChars)
      && r.value.chunksUsed >= 1
    ensures cache == null ==> r.Ok? ==> !r.value.fromCache
    ensures r.Ok? && !r.value.fromCache ==>
      pdf.document.Pages? && FreshResult(config, chat, pdf.document.pages) == Some(r.value)
    ensures pdf.document.Pages? && (cache == null || Cache.Lookup(old(cache.data), KeyFor(config, digest, pdf)) == Ok(None)) ==>
      (r.Ok? <==> FreshResult(config, chat, pdf.document.pages).Some?)
    ensures cache != null && pdf.document.Pages? ==>
      var key := KeyFor(config, digest, pdf);
      var got := Cache.Lookup(old(cache.data), key);
      && (got.Err? ==> r == Err(got.error) && cache.data == old(cache.data))
      && (got.Ok? && got.value.Some? ==>
            var e := got.value.value;
            r == Ok(FileResult(e.content, e.chunksUsed, e.truncated, 0, true))
            && cache.data == old(cache.data))
      && (got == Ok(None) && r.Ok? ==>
            !r.value.fromCache
            && cache.data == old(cache.data)[key := Cache.Stored(
                 Cache.CacheEntry(r.value.summary, r.value.chunksUsed, r.value.truncated))])
      && (got == Ok(None) && r.Err? ==> cache.data == old(cache.data))
    ensures cache != null ==> forall k :: Holds(old(cache.data), k) ==> Holds(cache.data, k)
    ensures cache != null && r.Ok? ==> Holds(cache.data, KeyFor(config, digest, pdf))
  {
    var loader := new PdfLoader.PdfLoaderState(config.maxChars);
    var loaded := loader.LoadText(pdf.document);
    if loaded.Err? {
      return Err(loaded.error);
    }
    var (text, truncated) := loaded.value;
    var key := KeyFor(config, digest, pdf);
    if cache != null {
      var cached := cache.Get(key);
      if cached.Err? {
        return Err(cached.error);
      }
      if cached.value.Some? {
        var e := cached.value.value;
        return Ok(FileResult(e.content, e.chunksUsed, e.truncated, 0, true));
      }
    }
    var summary;
    ghost var chunks, glued;
    summary, chunks, glued := Summarizer.SummarizePaper(
      chat, config.systemPrompt, text, config.chunkChars, config.chunkWorkers, config.profile);
    if summary.Err? {
      return Err(summary.error);
    }
    var entry := Cache.CacheEntry(summary.value.content, summary.value.chunksUsed, truncated);
    if cache != null {
      SetKeepsHolds(cache.data, key, entry);
      cache.Set(key, entry);
    }
    r := Ok(FileResult(summary.value.content, summary.value.chunksUsed, truncated,
                       summary.value.totalTokens, false));
  }

  // ---------------------------------------------------------------------
  // Harvesting the outcomes.

  /** The three counters of the harvest loop. */
  datatype Tally = Tally(success: nat, failed: nat, tokens: int)

  /** Counting one finished file: a success adds its tokens, a failure
      adds none. */
  function Count(t: Tally, outcome: Result<FileResult>): Tally {
    match outcome
    case Ok(res) => Tally(t.success + 1, t.failed, t.tokens + res.totalTokens)
    case Err(_) => Tally(t.success, t.failed + 1, t.tokens)
  }

  /** How many files have finished. */
  function Finished(slots: seq<Option<Result<FileResult>>>): nat
    decreases |slots|
  {
    if slots == [] then 0
    else Finished(slots[..|slots| - 1]) + (if slots[|slots| - 1].Some? then 1 else 0)
  }

  /** The counters over the finished files (`Some` slots), in file order:
      each finished file is a success or a failure, and with no success no
      tokens are counted. */
  function TallyOf(slots: seq<Option<Result<FileResult>>>): (t: Tally)
    ensures t.success + t.failed == Finished(slots)
    ensures t.success == 0 ==> t.tokens == 0
    decreases |slots|
  {
    if slots == [] then Tally(0, 0, 0)
    else
      Take(TallyOf(slots[..|slots| - 1]), slots[|slots| - 1])
  }

  /** Counting a slot: an unfinished file adds nothing. */
  function Take(t: Tally, slot: Option<Result<FileResult>>): Tally {
    match slot
    case None => t
    case Some(outcome) => Count(t, outcome)
  }

  lemma {:induction false} NoneFinished(n: nat)
    ensures Finished(seq(n, _ => None)) == 0
  {
    if n > 0 {
      var none: seq<Option<Result<FileResult>>> := seq(n, _ => None);
      var shorter: seq<Option<Result<FileResult>>> := seq(n - 1, _ => None);
      assert none[..n - 1] == shorter;
      NoneFinished(n - 1);
    }
  }

  /** Every file finished, with the given outcomes. */
  function Filled(outcomes: seq<Result<FileResult>>): (slots: seq<Option<Result<FileResult>>>)
    ensures |slots| == |outcomes|
    ensures forall i :: 0 <= i < |outcomes| ==> slots[i] == Some(outcomes[i])
  {
    seq(|outcomes|, i requires 0 <= i < |outcomes| => Some(outcomes[i]))
  }

  lemma {:induction false} FilledFinished(outcomes: seq<Result<FileResult>>)
    ensures Finished(Filled(outcomes)) == |outcomes|
    decreases |outcomes|
  {
    if outcomes != [] {
      var n := |outcomes|;
      assert Filled(outcomes)[..n - 1] == Filled(outcomes[..n - 1]);
      FilledFinished(outcomes[..n - 1]);
    }
  }

  /** The report for outcomes listed in file order: every file is counted
      once, as a success or as a failure. */
  function ReportOf(outcomes: seq<Result<FileResult>>): (r: ProcessReport)
    ensures r.total == |outcomes| && r.success + r.failed == r.total
  {
    FilledFinished(outcomes);
    var t := TallyOf(Filled(outcomes));
    ProcessReport(|outcomes|, t.success, t.failed, t.tokens)
  }

  /** Finishing one more file, whichever it is, adds its outcome to the
      counters. */
  lemma {:induction false} TallyFill(slots: seq<Option<Result<FileResult>>>, idx: nat, outcome: Result<FileResult>)
    requires idx < |slots| && slots[idx].None?
    ensures TallyOf(slots[idx := Some(outcome)]) == Count(TallyOf(slots), outcome)
    decreases |slots|
  {
    var n := |slots|;
    var filled := slots[idx := Some(outcome)];
    var rest := slots[..n - 1];
    if idx == n - 1 {
      assert filled[..n - 1] == rest;
    } else {
      assert filled[..n - 1] == rest[idx := Some(outcome)];
      TallyFill(rest, idx, outcome);
      assert filled[n - 1] == slots[n - 1];
      TakeCount(TallyOf(rest), outcome, slots[n - 1]);
    }
  }

  /** Counting two files gives the same counters in either order. */
  lemma TakeCount(t: Tally, outcome: Result<FileResult>, slot: Option<Result<FileResult>>)
    ensures Take(Count(t, outcome), slot) == Count(Take(t, slot), outcome)
  {
  }

  /** A completion order: every file's index exactly once. */
  predicate IsCompletionOrder(order: seq<nat>, n: nat) {
    && |order| == n
    && (forall k :: 0 <= k < n ==> order[k] < n)
    && (forall j, k :: 0 <= j < k < n ==> order[j] != order[k])
    && (forall i: nat :: i < n ==> i in order)
  }

  /** The serial counting loop over outcomes taken in `order`. */
  function HarvestInOrder(outcomes: seq<Result<FileResult>>, order: seq<nat>): Tally
    requires forall k :: 0 <= k < |order| ==> order[k] < |outcomes|
    decreases |order|
  {
    if order == [] then Tally(0, 0, 0)
    else Count(HarvestInOrder(outcomes, order[..|order| - 1]), outcomes[order[|order| - 1]])
  }

  /** The files finished after the indices in `done`. */
  function FilledAt(outcomes: seq<Result<FileResult>>, done: seq<nat>): (slots: seq<Option<Result<FileResult>>>)
    ensures |slots| == |outcomes|
    ensures forall i :: 0 <= i < |outcomes| ==> slots[i] == if i in done then Some(outcomes[i]) else None
  {
    seq(|outcomes|, i requires 0 <= i < |outcomes| => if i in done then Some(outcomes[i]) else None)
  }

  /** Finishing the file `idx` fills its slot and no other. */
  lemma FilledAtNext(outcomes: seq<Result<FileResult>>, done: seq<nat>, idx: nat)
    requires idx < |outcomes| && idx !in done
    ensures FilledAt(outcomes, done + [idx]) == FilledAt(outcomes, done)[idx := Some(outcomes[idx])]
  {
  }

  /** Indices of files, none twice. */
  predicate Distinct(order: seq<nat>, n: nat) {
    && (forall k :: 0 <= k < |order| ==> order[k] < n)
    && (forall j, k :: 0 <= j < k < |order| ==> order[j] != order[k])
  }

  lemma {:induction false} HarvestPrefix(outcomes: seq<Result<FileResult>>, order: seq<nat>, k: nat)
    requires Distinct(order, |outcomes|) && k <= |order|
    ensures HarvestInOrder(outcomes, order[..k]) == TallyOf(FilledAt(outcomes, order[..k]))
  {
    if k > 0 {
      HarvestPrefix(outcomes, order, k - 1);
      var idx := order[k - 1];
      var done := order[..k - 1];
      assert order[..k] == done + [idx];
      assert idx !in done by {
        forall j | 0 <= j < k - 1 ensures done[j] != idx {
          assert order[j] != order[k - 1];
        }
      }
      FilledAtNext(outcomes, done, idx);
      TallyFill(FilledAt(outcomes, done), idx, outcomes[idx]);
    } else {
      var none: seq<Option<Result<FileResult>>> := seq(|outcomes|, _ => None);
      assert FilledAt(outcomes, order[..0]) == none;
      NoneFinished(|outcomes|);
    }
  }

  /** The counters do not depend on the order in which the files finish:
      harvesting in any completion order gives the counts of the file-order
      report. */
  lemma CompletionOrderIrrelevant(outcomes: seq<Result<FileResult>>, order: seq<nat>)
    requires IsCompletionOrder(order, |outcomes|)
    ensures var t := HarvestInOrder(outcomes, order);
      ReportOf(outcomes) == ProcessReport(|outcomes|, t.success, t.failed, t.tokens)
  {
    HarvestPrefix(outcomes, order, |order|);
    assert order[..|order|] == order;
    assert FilledAt(outcomes, order) == Filled(outcomes);
  }

  // ---------------------------------------------------------------------
  // The scan.

  /** What is known of one finished file whatever the cache held. */
  predicate Settled(config: ScanConfig, chat: Summarizer.Chat, cacheOn: bool, pdf: PdfFile, outcome: Result<FileResult>)
    requires config.chunkChars >= 1
  {
    && (pdf.document.Unopenable? ==> outcome.Err?)
    && (outcome.Ok? && outcome.value.fromCache ==> cacheOn && outcome.value.totalTokens == 0)
    && (outcome.Ok? && !outcome.value.fromCache ==>
          && pdf.document.Pages?
          && outcome.value.chunksUsed >= 1
          && FreshResult(config, chat, pdf.document.pages) == Some(outcome.value))
    && (!cacheOn && pdf.document.Pages? ==> (outcome.Ok? <==> FreshResult(config, chat, pdf.document.pages).Some?))
  }

  /** Every finished file is settled. */
  predicate AllSettled(config: ScanConfig, chat: Summarizer.Chat, cacheOn: bool, pdfs: seq<PdfFile>,
                       slots: seq<Option<Result<FileResult>>>)
    requires config.chunkChars >= 1 && |slots| == |pdfs|
  {
    forall i :: 0 <= i < |slots| && slots[i].Some? ==> Settled(config, chat, cacheOn, pdfs[i], slots[i].value)
  }

  /** Every file that succeeded can be read back from the cache map `data`. */
  predicate AllHeld(data: map<string, PyValue.Value>, config: ScanConfig, digest: string -> string,
                    pdfs: seq<PdfFile>, slots: seq<Option<Result<FileResult>>>)
    requires |slots| == |pdfs|
  {
    forall i :: 0 <= i < |slots| && slots[i].Some? && slots[i].value.Ok? ==>
      Holds(data, KeyFor(config, digest, pdfs[i]))
  }

  lemma SettledNext(config: ScanConfig, chat: Summarizer.Chat, cacheOn: bool, pdfs: seq<PdfFile>,
                    slots: seq<Option<Result<FileResult>>>, idx: nat, outcome: Result<FileResult>)
    requires config.chunkChars >= 1 && |slots| == |pdfs| && idx < |slots|
    requires AllSettled(config, chat, cacheOn, pdfs, slots) && Settled(config, chat, cacheOn, pdfs[idx], outcome)
    ensures AllSettled(config, chat, cacheOn, pdfs, slots[idx := Some(outcome)])
  {
  }

  lemma HeldNext(before: map<string, PyValue.Value>, after: map<string, PyValue.Value>,
                 config: ScanConfig, digest: string -> string, pdfs: seq<PdfFile>,
                 slots: seq<Option<Result<FileResult>>>, idx: nat, outcome: Result<FileResult>)
    requires |slots| == |pdfs| && idx < |slots|
    requires AllHeld(before, config, digest, pdfs, slots)
    requires forall k :: Holds(before, k) ==> Holds(after, k)
    requires outcome.Ok? ==> Holds(after, KeyFor(config, digest, pdfs[idx]))
    ensures AllHeld(after, config, digest, pdfs, slots[idx := Some(outcome)])
  {
  }

  /** One worker finishing: `ProcessOne` seen from the harvest loop. */
  method FinishOne(config: ScanConfig, cache: Cache.SummaryCache?, chat: Summarizer.Chat,
                   digest: string -> string, pdf: PdfFile)
    returns (outcome: Result<FileResult>)
    requires config.chunkChars >= 1
    modifies cache
    ensures Settled(config, chat, cache != null, pdf, outcome)
    ensures cache != null ==> forall k :: Holds(old(cache.data), k) ==> Holds(cache.data, k)
    ensures cache != null && outcome.Ok? ==> Holds(cache.data, KeyFor(config, digest, pdf))
  {
    outcome := ProcessOne(config, cache, chat, digest, pdf);
  }

  /** The slots of `n` files none of which has finished. */
  function Unfinished(n: nat): (slots: seq<Option<Result<FileResult>>>)
    ensures |slots| == n && Finished(slots) == 0
    ensures forall i :: 0 <= i < n ==> slots[i].None?
  {
    NoneFinished(n);
    seq(n, _ => None)
  }

  /** The indices `0 <= i < n`, one future per file. */
  method Futures(n: nat) returns (pending: set<int>)
    ensures forall i :: i in pending <==> 0 <= i < n
  {
    pending := {};
    for k := 0 to n
      invariant forall j :: j in pending <==> 0 <= j < k
    {
      pending := pending + {k};
    }
  }

  /**
   * One turn of the `as_completed` loop: the file `idx` finishes, its
   * outcome fills its slot, and exactly one of `success` and `failed` goes
   * up, `totalTokens` taking the tokens of a success.
   */
  method HarvestOne(config: ScanConfig, cache: Cache.SummaryCache?, chat: Summarizer.Chat,
                    digest: string -> string, pdfs: seq<PdfFile>,
                    slots: seq<Option<Result<FileResult>>>, success: nat, failed: nat, totalTokens: int,
                    idx: int)
    returns (slots': seq<Option<Result<FileResult>>>, success': nat, failed': nat, totalTokens': int)
    requires config.chunkChars >= 1
    requires |slots| == |pdfs| && 0 <= idx < |slots| && slots[idx].None?
    requires Tally(success, failed, totalTokens) == TallyOf(slots)
    requires AllSettled(config, chat, cache != null, pdfs, slots)
    requires cache != null ==> AllHeld(cache.data, config, digest, pdfs, slots)
    modifies cache
    ensures |slots'| == |slots| && slots'[idx].Some?
    ensures forall i :: 0 <= i < |slots| && i != idx ==> slots'[i] == slots[i]
    ensures success' + failed' == success + failed + 1
    ensures Tally(success', failed', totalTokens') == TallyOf(slots')
    ensures AllSettled(config, chat, cache != null, pdfs, slots')
    ensures cache != null ==> AllHeld(cache.data, config, digest, pdfs, slots')
  {
    ghost var before := if cache != null then cache.data else map[];
    var outcome := FinishOne(config, cache, chat, digest, pdfs[idx]);
    TallyFill(slots, idx, outcome);
    SettledNext(config, chat, cache != null, pdfs, slots, idx, outcome);
    if cache != null {
      HeldNext(before, cache.data, config, digest, pdfs, slots, idx, outcome);
    }
    slots' := slots[idx := Some(outcome)];
    success', failed', totalTokens' := success, failed, totalTokens;
    if outcome.Err? {
      failed' := failed + 1;
    } else {
      success' := success + 1;
      totalTokens' := totalTokens + outcome.value.totalTokens;
    }
  }

  /**
   * The pool and the `as_completed` loop: each turn some unfinished file
   * finishes, its outcome goes to its own slot, and the counters take it
   * in. At the end every file has an outcome, the counters are those of the
   * outcomes in file order, and with the cache on every file that succeeded
   * can be read back from the cache under its key.
   */
  method ProcessAll(config: ScanConfig, cache: Cache.SummaryCache?, chat: Summarizer.Chat,
                    digest: string -> string, pdfs: seq<PdfFile>)
    returns (tally: Tally, outcomes: seq<Result<FileResult>>)
    requires config.chunkChars >= 1
    modifies cache
    ensures |outcomes| == |pdfs|
    ensures tally == TallyOf(Filled(outcomes))
    ensures forall i :: 0 <= i < |pdfs| ==> Settled(config, chat, cache != null, pdfs[i], outcomes[i])
    ensures cache != null ==>
      forall i :: 0 <= i < |pdfs| && outcomes[i].Ok? ==> Holds(cache.data, KeyFor(config, digest, pdfs[i]))
  {
    var slots;
    slots, tally := HarvestAll(config, cache, chat, digest, pdfs);
    outcomes := seq(|pdfs|, i requires 0 <= i < |pdfs| => slots[i].value);
    FilledSlots(config, chat, cache != null, pdfs, slots, outcomes);
    if cache != null {
      FilledHeld(cache.data, config, digest, pdfs, slots, outcomes);
    }
  }

  /** The `as_completed` loop: until no future is pending, some pending file
      finishes and is harvested. */
  method HarvestAll(config: ScanConfig, cache: Cache.SummaryCache?, chat: Summarizer.Chat,
                    digest: string -> string, pdfs: seq<PdfFile>)
    returns (slots: seq<Option<Result<FileResult>>>, tally: Tally)
    requires config.chunkChars >= 1
    modifies cache
    ensures |slots| == |pdfs| && forall i :: 0 <= i < |pdfs| ==> slots[i].Some?
    ensures tally == TallyOf(slots)
    ensures AllSettled(config, chat, cache != null, pdfs, slots)
    ensures cache != null ==> AllHeld(cache.data, config, digest, pdfs, slots)
  {
    var n := |pdfs|;
    slots := Unfinished(n);
    var pending := Futures(n);
    var success: nat, failed: nat, totalTokens := 0, 0, 0;
    while pending != {}
      invariant |slots| == n
      invariant forall i :: 0 <= i < n ==> (slots[i].None? <==> i in pending)
      invariant forall i :: i in pending ==> 0 <= i < n
      invariant Tally(success, failed, totalTokens) == TallyOf(slots)
      invariant AllSettled(config, chat, cache != null, pdfs, slots)
      invariant cache != null ==> AllHeld(cache.data, config, digest, pdfs, slots)
      decreases pending
    {
      var idx :| idx in pending;
      slots, success, failed, totalTokens :=
        HarvestOne(config, cache, chat, digest, pdfs, slots, success, failed, totalTokens, idx);
      pending := pending - {idx};
    }
    tally := Tally(success, failed, totalTokens);
  }

  /** Once every slot is filled, the slots are those of the outcomes and
      each outcome is settled. */
  lemma FilledSlots(config: ScanConfig, chat: Summarizer.Chat, cacheOn: bool, pdfs: seq<PdfFile>,
                    slots: seq<Option<Result<FileResult>>>, outcomes: seq<Result<FileResult>>)
    requires config.chunkChars >= 1
    requires |slots| == |pdfs| == |outcomes| && forall i :: 0 <= i < |pdfs| ==> slots[i] == Some(outcomes[i])
    requires AllSettled(config, chat, cacheOn, pdfs, slots)
    ensures slots == Filled(outcomes)
    ensures forall i :: 0 <= i < |pdfs| ==> Settled(config, chat, cacheOn, pdfs[i], outcomes[i])
  {
  }

  /** Once every slot is filled, each successful file is held. */
  lemma FilledHeld(data: map<string, PyValue.Value>, config: ScanConfig, digest: string -> string,
                   pdfs: seq<PdfFile>, slots: seq<Option<Result<FileResult>>>, outcomes: seq<Result<FileResult>>)
    requires |slots| == |pdfs| == |outcomes| && forall i :: 0 <= i < |pdfs| ==> slots[i] == Some(outcomes[i])
    requires AllHeld(data, config, digest, pdfs, slots)
    ensures forall i :: 0 <= i < |pdfs| && outcomes[i].Ok? ==> Holds(data, KeyFor(config, digest, pdfs[i]))
  {
  }

  /**
   * `run_scan`. No PDFs: an all-zero report, before the key is looked at.
   * An empty API key: a ValueError before any file is touched. Otherwise
   * the cache is opened when enabled, every file is processed and the
   * report counts each file once, with the tokens of the successes.
   */
  method RunScan(config: ScanConfig, pdfs: seq<PdfFile>, cacheFile: Cache.CacheFile,
                 chat: Summarizer.Chat, digest: string -> string)
    returns (r: Result<ProcessReport>, cache: Cache.SummaryCache?, outcomes: seq<Result<FileResult>>)
    requires config.chunkChars >= 1
    ensures pdfs == [] ==> r == Ok(ProcessReport(0, 0, 0, 0)) && cache == null && outcomes == []
    ensures pdfs != [] && config.apiKey == "" ==> r == Err(EmptyKeyError) && cache == null && outcomes == []
    ensures pdfs != [] && config.apiKey != "" ==>
      && |outcomes| == |pdfs|
      && r == Ok(ReportOf(outcomes))
      && (cache != null <==> config.cacheEnabled)
      && (cache != null ==> fresh(cache))
    ensures forall i :: 0 <= i < |outcomes| ==> Settled(config, chat, cache != null, pdfs[i], outcomes[i])
    ensures cache != null ==>
      forall i :: 0 <= i < |outcomes| && outcomes[i].Ok? ==> Holds(cache.data, KeyFor(config, digest, pdfs[i]))
  {
    cache := null;
    outcomes := [];
    if pdfs == [] {
      return Ok(ProcessReport(0, 0, 0, 0)), cache, outcomes;
    }
    if config.apiKey == "" {
      return Err(EmptyKeyError), cache, outcomes;
    }
    if config.cacheEnabled {
      cache := new Cache.SummaryCache(cacheFile);
    }
    // The pool of PoolSize(fileWorkers, |pdfs|) threads only decides the
    // order in which files finish, which ProcessAll leaves open.
    var tally;
    tally, outcomes := ProcessAll(config, cache, chat, digest, pdfs);
    r := Ok(ProcessReport(|pdfs|, tally.success, tally.failed, tally.tokens));
  }
}
