# paper_cli in Dafny

A model of the core of `paper_cli`, a command-line tool that summarises
folders of research papers with a chat-completion LLM and crawls arXiv for
new papers, together with proofs of what its code promises.

The model follows the program module by module:

- `pdf_loader.dfy` (`PdfLoader`) — `load_text`: the non-empty pages joined by
  line breaks, the `_clean_text` pipeline (line endings, tabs, lone line
  breaks, runs of three or more line breaks, double spaces, strip) and the
  cut to `max_chars`. Cleaning is proved to produce a normal form (no
  control whitespace, no lone or tripled line breaks, no double spaces,
  stripped) and to be idempotent.
- `chunker.dfy` (`Chunker`) and `summarizer.dfy` (`Summarizer`) —
  `chunk_text` as the paragraph-packing loop it is, proved lossless: the
  chunks, re-joined with a blank line except at the hard cuts inside an
  over-long paragraph, give back the text exactly, and no chunk exceeds
  `chunk_chars`. `summarize_paper` with the LLM as an oracle `chat`: the
  single-chunk call, the map step in order or on a worker pool harvested in
  any completion order, the in-order selection of labelled sections within
  the profile's budget, and the token sum.
- `llm_client.dfy` (`LlmClient`) — `LLMClient` as a class: the clamped
  settings, the rate slot that spaces calls at least `1/qps` seconds apart,
  and the retry loop of `chat` with its back-off and its final error
  classification. The SDK is an oracle answering attempt `k`; the clock is
  an oracle of readings.
- `cache.dfy`, `cache_key.dfy`, `py_value.dfy` (`Cache`, `CacheKey`,
  `PyValue`) — the JSON summary cache as a class over a map: `_load`, `get`
  with its defaults and `int()` conversion, and `set`; the cache key as the
  digest of the sorted-key JSON fingerprint, whose serialisation is proved
  to parse back (so two different fingerprints can only share a key through
  a digest collision).
- `config.dfy` (`Config`) — `_read_yaml` and `load_config`: the
  CLI-over-environment-over-file-over-default precedence of each setting,
  the lower clamps of `max_chars` and `chunk_chars`, and the base URL without
  a trailing slash.
- `app.dfy` (`App`) — `run_scan`: the early exits, `_process_one` (load,
  cache lookup, summarise, cache store), and the harvest of every file's
  outcome in whatever order the files complete. The counters are proved not
  to depend on that order.
- `storage.dfy`, `arxiv_client.dfy`, `crawl_service.dfy` (`Storage`,
  `ArxivClient`, `CrawlService`) — the crawler: title-to-filename
  normalisation (always a safe, non-empty, dot-free-at-the-front stem of at
  most 180 characters plus `.pdf`), arXiv id and PDF-link extraction, the
  query parameters, the entry loop of `search_arxiv` with the network as an
  oracle, and `run_crawl` over a set of existing file names with the
  download as an oracle. Every paper is counted exactly once, and a
  later paper with the same file name as a saved one is skipped.

`text.dfy` (`Text`) holds the string functions the Python code takes from
its standard library: `str.isspace`, `strip`/`rstrip`, `split`/`join`, ASCII
`lower`, the `\s+` squeeze and decimal rendering. `wrappers.dfy` holds
`Option` and `Result`; a raised exception is an `Err` carrying the
exception's class name and message.

## Model

Several operations are defined by a function that states what the source computes, and the rows below name the lemmas and methods whose contracts prove that function's properties rather than the function itself. `PdfLoader.CleanText` (`_clean_text`) stands behind `CleanTextShape`, `CleanFixed` and `CleanTextIdempotent`. `Chunker.ChunksOf` (`chunk_text`) stands behind `ChunkText`, `ChunksArePieces` and `TwoParagraphsExample`. `Summarizer.PaperSummary` (`summarize_paper`) stands behind `SummarizePaper`. `ArxivClient.ExtractPdfUrl` (`_extract_pdf_url`) stands behind `ExtractPdfUrlFirst`, `ExtractPdfUrlFallback` and `ExtractPdfUrlFails`. `Storage.NormalizeTitleToFilename` stands behind `FilenameShape`, `CleanTitleKept` and `LeadingDotLeavesSpace`. `CacheKey.Serialise` and `CacheKey.CacheKeyOf` (`_cache_key`) stand behind `ParseSerialise`, `SerialiseInjective` and `SameKeyOnlyByCollision`. `CrawlService.Trace` (the download loop of `run_crawl`) stands behind `TraceShape`, `SkipIffExisting`, `LaterDuplicateSkipped`, `CountsAddUp` and `CrawlPapers`. `LlmClient.Run` (the retry loop of `chat`) stands behind `AttemptsShape`, `SettledAt`, `AllTransient`, `FinalError` and `Client.Chat`.

| member | source | states |
|---|---|---|
| PdfLoader.PdfLoaderState.LoadText | src/paperreader_cli/pdf_loader.py:14-37 | an unopenable document, and only that, is an error; otherwise the text is the cleaned join of the non-empty pages, cut to `max_chars` exactly when it is longer, and the flag says whether it was cut |
| PdfLoader.JoinNextPage | src/paperreader_cli/pdf_loader.py:22-28 | reading one more page: an empty page adds nothing, any other page is appended after a line break unless nothing was written yet |
| PdfLoader.NonEmptyPages | src/paperreader_cli/pdf_loader.py:24-25 | no page kept is empty |
| PdfLoader.JoinEmpty | src/paperreader_cli/pdf_loader.py:26 | the buffer of non-empty pages is empty exactly when no page was kept, which is the test `buffer.tell() > 0` stands for |
| PdfLoader.SliceTo | src/paperreader_cli/pdf_loader.py:35-36 | the cut keeps a prefix of the text of length `max_chars`, or all of it when shorter |
| PdfLoader.ReplaceCr | src/paperreader_cli/pdf_loader.py:41 | after the `\r\n` pass, every remaining carriage return becomes a line break and nothing else changes |
| PdfLoader.LoneToSpace | src/paperreader_cli/pdf_loader.py:43 | a line break with no line break on either side becomes a space; every other character is kept |
| PdfLoader.LoneToSpaceNoLone | src/paperreader_cli/pdf_loader.py:43 | after that pass no lone line break remains |
| PdfLoader.CapPaired | src/paperreader_cli/pdf_loader.py:44 | with no lone line break, capping runs of three or more line breaks leaves line breaks only in pairs |
| PdfLoader.PairedNoLoneNoTriple | src/paperreader_cli/pdf_loader.py:44 | text whose line breaks come in pairs has neither lone nor tripled line breaks |
| PdfLoader.CleanTextShape | src/paperreader_cli/pdf_loader.py:40-46 | cleaned text has no carriage return, tab, form feed or vertical tab, no lone line break, no run of three line breaks, no double space, and no whitespace at either end |
| PdfLoader.CleanFixed | src/paperreader_cli/pdf_loader.py:40-46 | text already in that form is left unchanged by cleaning |
| PdfLoader.CleanTextIdempotent | src/paperreader_cli/pdf_loader.py:40-46 | cleaning twice gives the same as cleaning once |
| Chunker.ChunkText | src/paperreader_cli/summarizer.py:30-58 | the chunks are exactly `ChunksOf`: the whole text when it fits, otherwise the greedy packing of the blank-line-separated paragraphs followed by the final flush; text that fits is one chunk; otherwise at least one chunk, none longer than `chunk_chars`, and the chunks re-joined (a blank line between them except after a hard cut) give back the text exactly; a hard cut follows only a full-length slice |
| Chunker.PackParagraphs | src/paperreader_cli/summarizer.py:36-53 | the paragraph loop ends in the state `PackAll` gives for all the paragraphs, with the chunks well cut, the buffer within the limit, and the chunks and buffer together covering the paragraphs joined by blank lines |
| Chunker.PackParagraph | src/paperreader_cli/summarizer.py:39-53 | one paragraph step is `PackStep`: the paragraph joins the buffer exactly when the charge plus its length plus 2 is within `chunk_chars`, the charge growing by that much; otherwise the buffer is flushed as one chunk and the paragraph is sliced when over the limit (empty buffer, charge 0) or starts the buffer charged its own length; the step keeps the buffer within `chunk_chars` and the chunks well cut, and extends the text covered so far by a blank line and the paragraph |
| Chunker.FlushAndPlace | src/paperreader_cli/summarizer.py:43-53 | the step when the paragraph does not join: the same `PackStep` outcome, buffer and chunk invariants as the whole step |
| Chunker.Flush | src/paperreader_cli/summarizer.py:44-45 | a non-empty buffer becomes one more chunk, its paragraphs joined by blank lines, after a paragraph break; the covered text is unchanged |
| Chunker.SlicesShape | src/paperreader_cli/summarizer.py:46-48 | every slice but the last has exactly `chunk_chars` characters, the last is not empty, and an over-long paragraph gives at least two |
| Chunker.NextSlice | src/paperreader_cli/summarizer.py:46-48 | one turn of the slice loop appends `paragraph[i:i + chunk_chars]`, glued unless first, and keeps the slices still to come in step with `Slices` |
| Chunker.StepPieces | src/paperreader_cli/summarizer.py:36-53 | one paragraph step keeps every chunk a piece and the buffer a run of paragraphs ending at the new one, and leaves something chunked or buffered |
| Chunker.PackAllPieces | src/paperreader_cli/summarizer.py:36-53 | after any number of paragraphs every finished chunk is the blank-line join of consecutive whole paragraphs or a slice of one over-long paragraph, and the buffer holds a run of paragraphs ending at the last one |
| Chunker.TwoParagraphsExample | src/paperreader_cli/summarizer.py:36-55 | "ab", a blank line, "cd" at a limit of 5 is chunked as "ab" and "cd": the second paragraph does not fit beside the first and is never cut |
| Chunker.ChunksArePieces | src/paperreader_cli/summarizer.py:30-58 | there is at least one chunk, and for a text over the limit every chunk is such a piece of its paragraphs |
| Chunker.AppendSlices | src/paperreader_cli/summarizer.py:46-48 | an over-long paragraph becomes exactly its `Slices`: full-length slices and a non-empty last slice, appended after the earlier chunks, which together re-join to the earlier text, a blank line and the paragraph |
| Summarizer.MergeBudget | src/paperreader_cli/summarizer.py:72-73 | the merge budget is 36000 characters for the `report` profile and 60000 for every other profile |
| Summarizer.PoolSize | src/paperreader_cli/summarizer.py:100 | the pool has between one and as many workers as jobs, and exactly the requested number when that is positive and smaller |
| Summarizer.SectionsAt | src/paperreader_cli/summarizer.py:115-116 | section `k` is partial note `k` under its 1-based label |
| Summarizer.ChargeSnoc | src/paperreader_cli/summarizer.py:117-121 | each selected section charges its length plus two |
| Summarizer.MergePrefixSpec | src/paperreader_cli/summarizer.py:113-121 | the merge input is an in-order prefix of the sections; the first section is always in it; more than one section fits the budget; and it stops only where the next section would exceed the budget |
| Summarizer.SelectSections | src/paperreader_cli/summarizer.py:113-121 | the loop selects exactly that prefix of the labelled sections |
| Summarizer.MapChunksInOrder | src/paperreader_cli/summarizer.py:94-98 | the map step succeeds exactly when every chunk's call succeeds, and then yields each chunk's note and tokens at the chunk's index; otherwise the error of the first failing chunk |
| Summarizer.MapChunksPooled | src/paperreader_cli/summarizer.py:99-109 | harvested in any completion order, the map step succeeds exactly when every chunk's call succeeds and then yields the same notes and tokens in chunk order; otherwise it fails with the error of some failing chunk |
| Summarizer.SumSnoc | src/paperreader_cli/summarizer.py:111 | the token total grows by each partial call's tokens |
| Summarizer.SummarizeInChunks | src/paperreader_cli/summarizer.py:81-130 | with several chunks: an error when some chunk's call fails; otherwise the merge call's reply on the selected sections, with `chunks_used` the number of chunks and the tokens of every call summed |
| Summarizer.SummarizePaper | src/paperreader_cli/summarizer.py:61-130 | it succeeds exactly when `PaperSummary` does (every chat call of the paper succeeds), and then with that summary; the chunks are those of `ChunksOf`; a text that fits in `chunk_chars` is summarised by one call on the whole text; a success reports at least one chunk; the chunks are lossless and within `chunk_chars`; one chunk is summarised by one call on the whole prompt with `chunks_used = 1`; several chunks as in the map and merge steps above |
| LlmClient.AtLeastReal | src/paperreader_cli/llm_client.py:37 | the rate clamp is the larger of 0.1 and the requested rate |
| LlmClient.Client.constructor | src/paperreader_cli/llm_client.py:31-40 | the timeout is at least 10, the retries at least 0, the rate at least 0.1 per second, the minimum interval its inverse (so at most 10 seconds), and no call has been made |
| LlmClient.SlotAt | src/paperreader_cli/llm_client.py:53 | a slot is granted no earlier than now and no earlier than one interval after the previous slot, and is one of the two |
| LlmClient.Client.AcquireRateSlot | src/paperreader_cli/llm_client.py:49-57 | the new last slot is that slot and the caller sleeps exactly until it, never a negative time |
| LlmClient.SlotsSpaced | src/paperreader_cli/llm_client.py:49-57 | over successive calls, slot `j` is at least `j - i` intervals after slot `i`, and the first is an interval after the previous last call |
| LlmClient.Backoff | src/paperreader_cli/llm_client.py:86 | each back-off lies between 0.8 and 8 seconds |
| LlmClient.Pow2 | src/paperreader_cli/llm_client.py:86 | the power of two is at least one |
| LlmClient.FinalError | src/paperreader_cli/llm_client.py:91-97 | running out of retries is always an error |
| LlmClient.AttemptsShape | src/paperreader_cli/llm_client.py:62-87 | at least one and at most `max_retries + 1` attempts, one back-off between consecutive attempts and none after the last, the pause after attempt `a` being `Backoff(a)` |
| LlmClient.SettledAt | src/paperreader_cli/llm_client.py:62-89 | when attempt `k` is the first outcome that is not transient, the call ends with that outcome's settlement after `k + 1` attempts |
| LlmClient.AllTransient | src/paperreader_cli/llm_client.py:82-97 | when every attempt fails transiently, all `max_retries + 1` attempts are made and the last error is classified |
| LlmClient.Client.Chat | src/paperreader_cli/llm_client.py:59-97 | the reply, attempt count and back-offs are those of the retry run, and one rate slot is taken per attempt, the last becoming the client's last call time |
| PyValue.AtLeast | src/paperreader_cli/config.py:95-96 | `max(lo, x)`, the one integer clamp used by the configuration and by the LLM client's timeout and retries: the larger of the bound and the value |
| PyValue.TruncateReal | src/paperreader_cli/cache.py:56 | `int()` of a float rounds toward zero |
| PyValue.ParseIntOfString | src/paperreader_cli/config.py:86-87 | `int()` of an integer's decimal text gives the integer back |
| PyValue.ParseSignedDigits | src/paperreader_cli/config.py:86-87 | a run of digits with or without a minus sign parses to its value |
| Cache.Loaded | src/paperreader_cli/cache.py:25-36 | a non-empty loaded map only comes from a parsed JSON object, and is that object |
| Cache.SummaryCache.Load | src/paperreader_cli/cache.py:25-36 | a missing, unparsable or non-object file leaves the cache empty |
| Cache.Lookup | src/paperreader_cli/cache.py:44-58 | a miss exactly when the key is absent, not a mapping, or has no string content; otherwise an error exactly when `int()` of `chunks_used` (default 1) raises, with its message, and else a hit carrying the stored content, `max(1, int(chunks_used))` and `bool(truncated)` (default False) |
| Cache.ContentOnlyReadsDefaults | src/paperreader_cli/cache.py:50-57 | a record holding only a string content reads back with one chunk and not truncated |
| Cache.SummaryCache.Get | src/paperreader_cli/cache.py:44-58 | `get` answers that lookup on the current data |
| Cache.SummaryCache.Set | src/paperreader_cli/cache.py:60-66 | the key maps to the stored entry, and every other key looks up as before |
| Cache.SetThenGet | src/paperreader_cli/cache.py:44-66 | a `get` after `set` returns the stored content, truncation flag and chunk count (raised to one) |
| Cache.SetKeepsOthers | src/paperreader_cli/cache.py:60-66 | a `set` does not change any other key's lookup |
| Cache.SetIdempotent | src/paperreader_cli/cache.py:60-66 | storing the same entry twice is storing it once |
| CacheKey.ParseSerialise | src/paperreader_cli/cache.py:87-95 | the sorted-key JSON text of a fingerprint reads back to that fingerprint |
| CacheKey.ReadEscaped | src/paperreader_cli/cache.py:95 | every string written with JSON escapes reads back unchanged |
| CacheKey.SerialiseInjective | src/paperreader_cli/cache.py:87-95 | different fingerprints serialise to different texts |
| CacheKey.SameKeyOnlyByCollision | src/paperreader_cli/cache.py:78-96 | two different fingerprints share a cache key only when the digest collides on two different texts |
| Config.ReadYaml | src/paperreader_cli/config.py:37-47 | a missing file or invalid YAML is an error; an empty document is an empty mapping; otherwise it succeeds exactly when the root is a mapping, and yields that mapping |
| Config.Setting | src/paperreader_cli/config.py:76-84 | a non-empty CLI value wins, then a non-empty environment value, then a truthy file value, then the default |
| Config.LoadConfig | src/paperreader_cli/config.py:58-98 | an error exactly when reading the file fails or, for a number not given on the command line, `int()` of the file's value (or the default) raises; `max_chars` is at least 2000 and `chunk_chars` at least 1000; a number or flag given on the command line wins, and the numbers are clamped either way: `max_chars` is `max(2000, cli_max_chars)` or `max(2000, int(raw.get("max_chars", 120000)))`, `chunk_chars` is `max(1000, cli_chunk_chars)` or `max(1000, int(raw.get("chunk_chars", 12000)))`, and `recursive` is the CLI flag or `bool(raw.get("recursive", True))`, so a falsy value present in the file is kept; the string settings follow the precedence above |
| Config.BaseUrlHasNoTrailingSlash | src/paperreader_cli/config.py:91 | the loaded base URL never ends with `/` |
| Config.DefaultsApply | src/paperreader_cli/config.py:76-88 | an empty file with no CLI or environment values gives the default endpoint, model, prompt, sizes and recursion |
| Storage.FilenameShape | src/paperreader_cli/crawler/storage.py:11-18 | every file name is a stem of 1 to 180 characters ending in `.pdf`, with no forbidden character, no whitespace but single spaces, and no leading dot |
| Storage.NamedSafe | src/paperreader_cli/crawler/storage.py:12-15 | before capping, the name is safe, non-empty and does not start with a dot |
| Storage.CappedSafe | src/paperreader_cli/crawler/storage.py:16-17 | cutting a long name to 180 characters and stripping its end keeps it safe and non-empty |
| Storage.CleanTitleKept | src/paperreader_cli/crawler/storage.py:11-18 | a title that is already a clean name is kept as it is, with `.pdf` appended |
| Storage.LeadingDotLeavesSpace | src/paperreader_cli/crawler/storage.py:13 | since whitespace is stripped before dots, the title `. a` gives ` a.pdf`, a stem with a leading space |
| ArxivClient.ExtractId | src/paperreader_cli/crawler/arxiv_client.py:29-33 | the id never contains `/` |
| ArxivClient.ExtractIdIsLastSegment | src/paperreader_cli/crawler/arxiv_client.py:29-33 | the id is the part of the slash-stripped text after its last `/` |
| ArxivClient.ExtractPdfUrl | src/paperreader_cli/crawler/arxiv_client.py:36-50 | a successful extraction never yields an empty URL |
| ArxivClient.ExtractPdfUrlFirst | src/paperreader_cli/crawler/arxiv_client.py:37-46 | the first link titled `pdf`, or related and ending in `.pdf`, with a non-empty address wins |
| ArxivClient.ExtractPdfUrlFallback | src/paperreader_cli/crawler/arxiv_client.py:48-50 | with no such link, the URL is built from the id, or it is an error when there is no id |
| ArxivClient.ExtractPdfUrlFails | src/paperreader_cli/crawler/arxiv_client.py:36-50 | extraction fails exactly when no link is accepted and the id is empty |
| ArxivClient.CollapseShape | src/paperreader_cli/crawler/arxiv_client.py:89 | the collapsed title has single spaces between words and none at either end, and is empty exactly when there are no words |
| ArxivClient.SearchParams | src/paperreader_cli/crawler/arxiv_client.py:60-70 | a blank query is an error; otherwise the search term is `all:` and the stripped query, from the first result, with at least one result |
| ArxivClient.SearchTermStripped | src/paperreader_cli/crawler/arxiv_client.py:60-65 | the term after `all:` is non-empty and has no surrounding whitespace |
| ArxivClient.ToPaperSpec | src/paperreader_cli/crawler/arxiv_client.py:88-98 | an entry is skipped exactly when its title is empty; a paper made from an entry has a title and a PDF URL |
| ArxivClient.HarvestNext | src/paperreader_cli/crawler/arxiv_client.py:87-98 | one more entry: after an error nothing changes; a skipped entry adds nothing; a bad link raises; a good entry appends its paper |
| ArxivClient.HarvestErrorKept | src/paperreader_cli/crawler/arxiv_client.py:94-97 | an error stops the loop: later entries do not change it |
| ArxivClient.HarvestOkIff | src/paperreader_cli/crawler/arxiv_client.py:86-100 | the entry loop succeeds exactly when no entry is rejected |
| ArxivClient.HarvestKept | src/paperreader_cli/crawler/arxiv_client.py:86-100 | a successful search keeps one paper, with a title and a URL, per titled entry |
| ArxivClient.HarvestEntries | src/paperreader_cli/crawler/arxiv_client.py:86-100 | the loop computes that harvest |
| ArxivClient.SearchResult | src/paperreader_cli/crawler/arxiv_client.py:60-62 | a blank query fails with `query cannot be empty` |
| ArxivClient.SearchArxiv | src/paperreader_cli/crawler/arxiv_client.py:53-100 | `search_arxiv` answers the parameters, the fetch failures and the harvest as specified |
| CrawlService.ResolveQuery | src/paperreader_cli/crawler/service.py:19-28 | a non-blank CLI query wins, stripped; otherwise a non-blank last query, stripped; an error exactly when both are blank |
| CrawlService.ResolvedQueryStripped | src/paperreader_cli/crawler/service.py:19-28 | a resolved query is non-empty and has no surrounding whitespace |
| CrawlService.SelectOutputDir | src/paperreader_cli/crawler/service.py:63-64 | a non-blank CLI directory wins, stripped; otherwise the default |
| CrawlService.CrawlReport.constructor | src/paperreader_cli/crawler/service.py:11-16 | a report starts with the fetched count and zero counters |
| CrawlService.TraceShape | src/paperreader_cli/crawler/service.py:40-58 | one progress entry per paper, in order, naming its normalised file, and no existing file disappears |
| CrawlService.SkipIffExisting | src/paperreader_cli/crawler/service.py:44-48 | a paper is skipped exactly when its file exists when it is reached |
| CrawlService.SavedFileExists | src/paperreader_cli/crawler/service.py:50-54 | a saved paper's file exists afterwards |
| CrawlService.LaterDuplicateSkipped | src/paperreader_cli/crawler/service.py:40-54 | once a paper is saved, a later paper with the same file name is skipped |
| CrawlService.CountsAddUp | src/paperreader_cli/crawler/service.py:44-58 | saved, skipped and failed entries add up to the number of entries |
| CrawlService.CrawlCountsAddUp | src/paperreader_cli/crawler/service.py:37-60 | saved + skipped + failed equals the number of papers fetched |
| CrawlService.HandlePaper | src/paperreader_cli/crawler/service.py:41-58 | one paper is one step of the crawl, and exactly the counter of its status grows by one |
| CrawlService.CrawlPapers | src/paperreader_cli/crawler/service.py:38-60 | the loop yields the crawl's log and files, and the counters count the statuses in the log |
| CrawlService.RunCrawl | src/paperreader_cli/crawler/service.py:31-60 | a failed search is raised with nothing written; otherwise the report counts the papers found and their statuses |
| App.ProcessOne | src/paperreader_cli/app.py:67-120 | an unopenable PDF fails; a cache hit returns the stored summary with no tokens and leaves the cache as it was; a miss succeeds exactly when `FreshResult` does, that is when `summarize_paper` on the loaded text succeeds, and returns its summary, chunk count and tokens with the truncation flag, storing them under the file's key; a lookup error fails; an entry the cache holds stays held, and a success leaves the file's key held |
| App.SetKeepsHolds | src/paperreader_cli/app.py:103-111 | storing a summary makes its key held and keeps every other held key |
| App.TallyOf | src/paperreader_cli/app.py:128-147 | success plus failed is the number of finished files, and no success means no tokens |
| App.ReportOf | src/paperreader_cli/app.py:158 | the report's total is the number of files, and success plus failed equals it |
| App.FilledFinished | src/paperreader_cli/app.py:123-158 | once every file has finished, every file is counted |
| App.TallyFill | src/paperreader_cli/app.py:128-147 | harvesting one more file adds exactly its outcome to the counters |
| App.TakeCount | src/paperreader_cli/app.py:128-147 | counting two outcomes in either order gives the same counters |
| App.HarvestPrefix | src/paperreader_cli/app.py:128-147 | the counters after any prefix of a completion order are those of the files finished so far |
| App.CompletionOrderIrrelevant | src/paperreader_cli/app.py:123-158 | the counters do not depend on the order in which the files complete |
| App.HarvestOne | src/paperreader_cli/app.py:128-156 | harvesting one pending file fills its slot, counts it once and keeps every other slot |
| App.HarvestAll | src/paperreader_cli/app.py:128-156 | the `as_completed` loop fills every slot, its counters are those of the slots, every outcome is settled, and with the cache on every success stays held |
| App.ProcessAll | src/paperreader_cli/app.py:122-156 | every file finishes once in some completion order, and the counters are those of all outcomes; a fresh success is `FreshResult` of its file, and with the cache off a readable file succeeds exactly when `FreshResult` does |
| App.RunScan | src/paperreader_cli/app.py:37-158 | no PDFs give an empty report; an empty API key fails; otherwise the report counts every file's outcome, and a cache exists exactly when caching is on; every fresh success is the `FreshResult` of its file, and with caching off a readable file succeeds exactly when summarising it does |

## Left out

- I/O is left out or made a parameter. The console, the progress lines and `render_summary_saved` are not modelled. Writing the markdown summaries (`write_markdown_for_pdf`) and persisting the cache (`_persist`) are assumed to succeed. `write_config` and `resolve_output_dir` are not modelled, and neither is `find_pdfs`: the scan takes its list of PDFs as input.
- The PDF parser is replaced by a document value, either unopenable or a sequence of page texts.
- `file_sha256` and SHA-256 are replaced by a content hash carried with each PDF and a `digest` function parameter.
- The network is an oracle:
  - the arXiv request, with its URL encoding, timeout and XML parsing, is a function from the query to a fetch outcome;
  - `download_pdf` is a function from the paper and the target name to success or failure, and its internals (the `%PDF` check, the streaming and the clean-up) are not modelled.
- The file system of the crawler is a set of file names inside the output directory.
- The clock, `time.sleep` and the OpenAI SDK are oracles:
  - the SDK answers attempt `k` with a reply or one of the exception kinds;
  - sleeps are reported as durations and not performed;
  - per-thread clients are not modelled.
- Concurrency is modelled at the level of completion order. Each `_process_one` and each chunk call is an atomic step at the point it completes. The harvest order is chosen arbitrarily. Cache operations of different files are not interleaved, and neither are the rate-slot updates of concurrent calls.
- PyValue.PyInt: the ValueError for a non-numeric string quotes the text between single quotes, where Python uses `repr()`; the escaping `repr()` applies to quotes, backslashes and unprintable characters is not modelled. No operation of the model inspects these messages.
- Floats are exact reals: the back-off, the rate interval, and `int()` of a float. NaN and infinity are not modelled.
- `str()` of a YAML list or mapping used as a string setting comes from a `render` parameter. `int()` of strings is modelled for optional whitespace, an optional sign and decimal digits only: no underscores, no other Unicode digits.
- `lower()` is ASCII lower-casing. That is exact for comparisons with `pdf` and `related`.
- App.RunScan: the source as written calls `render_summary_saved` with a `from_cache` keyword (`src/paperreader_cli/app.py:148-155`) that the renderer does not accept (`src/paperreader_cli/renderer.py:10-17`). That call raises TypeError outside the `try` of `src/paperreader_cli/app.py:130-143`, so as written `run_scan` fails at the first file that succeeds instead of returning a `ProcessReport`. The model assumes the renderer accepts the keyword and promises the report over every outcome. The caller at `src/paperreader_cli/cli.py:110` also omits the `summary_output_dir` argument that `run_scan` requires (`src/paperreader_cli/app.py:37`), which would raise TypeError before any scan. The model has no output directory, because the directory only feeds the markdown writing, which is not modelled.
- App.ProcessOne requires `chunk_chars >= 1`. `load_config` guarantees at least 1000. For zero or negative values Python would raise or drop the text, and that is not modelled.
- `run_scan` reads settings that `AppConfig` does not define: `file_workers`, `chunk_workers`, `cache_enabled`, `profile`, and the client's timeout, retries and rate. The model therefore takes its own scan configuration record rather than `AppConfig`.
- `DEFAULT_CONFIG_VALUES` (`src/paperreader_cli/config.py:15-23`) feeds only the interactive set-up command in `cli.py`, which is not part of this model. `load_config` has its own defaults, and they differ in the system prompt. The model uses the defaults of `load_config`.
