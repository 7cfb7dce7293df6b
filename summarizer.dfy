/**
 * `summarize_paper` of src/paperreader_cli/summarizer.py: one chat call for a
 * paper that fits in one chunk, otherwise a map step (one chat call per
 * chunk, results stored by chunk index) and a reduce step (one chat call over
 * an in-order prefix of the partial notes that fits a character budget).
 *
 * The language model is the oracle `chat`, a function from the prompt sent to
 * the reply or the error message of the `LLMClientError` it raises. The
 * instruction texts inside the prompts are opaque: a `Prompt` records only
 * what is put into it and in which order.
 */
module Summarizer {
  import opened Wrappers
  import opened Text
  import Chunker
  import opened LlmClient

  datatype Prompt =
    | WholePaper(systemPrompt: string, paper: string)
      // the summary instruction, then the whole text
    | ChunkNotes(systemPrompt: string, index: nat, count: nat, chunk: string)
      // "part index of count": key points of one chunk
    | MergeNotes(systemPrompt: string, sections: seq<string>)
      // the summary instruction, then the sections joined by "\n\n"

  type Chat = Prompt -> Result<ChatResult>

  datatype SummaryResult = SummaryResult(content: string, chunksUsed: nat, totalTokens: int)

  /** The reduce step's character budget: 60000 for the "paper" profile,
      36000 for "report"; any other profile name is treated as "paper". */
  function MergeBudget(profile: string): (budget: nat)
    ensures profile == "report" ==> budget == 36000
    ensures profile != "report" ==> budget == 60000
  {
    var name := if profile == "paper" || profile == "report" then profile else "paper";
    if name == "paper" then 60000 else 36000
  }

  /** Size of a worker pool for `jobs` tasks: `min(max(1, workers), jobs)`.
      The pool size only bounds how many calls run at once; the model leaves
      the interleaving free (any completion order), so no operation here
      depends on it. */
  function PoolSize(workers: int, jobs: nat): (size: nat)
    ensures jobs >= 1 ==> 1 <= size <= jobs
    ensures jobs >= 1 && workers >= 1 ==> size == if workers < jobs then workers else jobs
  {
    var atLeastOne := if workers < 1 then 1 else workers;
    if atLeastOne < jobs then atLeastOne else jobs
  }

  /** The label of the i-th partial note (1-based) in the merge prompt,
      stripped of surrounding whitespace as the source does. */
  function Section(i: nat, part: string): string {
    Strip("### 片段 " + NatToString(i) + "\n" + part)
  }

  /** The labelled partial notes, in chunk order. */
  function Sections(partials: seq<string>): (r: seq<string>)
    ensures |r| == |partials|
  {
    if partials == [] then []
    else Sections(partials[..|partials| - 1]) + [Section(|partials|, partials[|partials| - 1])]
  }

  /** The k-th labelled note carries label k + 1 and the k-th partial note. */
  lemma {:induction false} SectionsAt(partials: seq<string>, k: nat)
    requires k < |partials|
    ensures Sections(partials)[k] == Section(k + 1, partials[k])
    decreases |partials|
  {
    var n := |partials|;
    if k < n - 1 {
      SectionsAt(partials[..n - 1], k);
    }
  }

  /** Characters charged for a list of sections: each one's length plus 2. */
  function Charge(sections: seq<string>): nat {
    if sections == [] then 0 else |sections[0]| + 2 + Charge(sections[1..])
  }

  lemma {:induction false} ChargeSnoc(sections: seq<string>, s: string)
    ensures Charge(sections + [s]) == Charge(sections) + |s| + 2
  {
    if sections == [] {
      assert [s][1..] == [];
    } else {
      assert (sections + [s])[1..] == sections[1..] + [s];
      ChargeSnoc(sections[1..], s);
    }
  }

  /**
   * The sections that make it into the merge prompt, given `used` characters
   * already charged: the next section is taken unless something has been
   * taken already (`!first`) and its charge would exceed the budget; the
   * first stop ends the selection.
   */
  function TakeWithin(sections: seq<string>, budget: int, used: int, first: bool): seq<string>
    decreases |sections|
  {
    if sections == [] then []
    else if !first && used + |sections[0]| + 2 > budget then []
    else [sections[0]] + TakeWithin(sections[1..], budget, used + |sections[0]| + 2, false)
  }

  lemma {:induction false} TakeWithinSpec(sections: seq<string>, budget: int, used: int, first: bool)
    ensures var r := TakeWithin(sections, budget, used, first);
      && |r| <= |sections| && r == sections[..|r|]
      && (first && |sections| > 0 ==> |r| >= 1)
      && ((!first && |r| >= 1) || |r| > 1 ==> used + Charge(r) <= budget)
      && (|r| < |sections| && (!first || |r| >= 1) ==> used + Charge(r) + |sections[|r|]| + 2 > budget)
    decreases |sections|
  {
    if sections == [] || (!first && used + |sections[0]| + 2 > budget) {
    } else {
      var s0 := sections[0];
      var tail := TakeWithin(sections[1..], budget, used + |s0| + 2, false);
      TakeWithinSpec(sections[1..], budget, used + |s0| + 2, false);
      var r := [s0] + tail;
      assert r[1..] == tail;
      assert r == sections[..|r|];
      if |r| < |sections| {
        assert sections[|r|] == sections[1..][|tail|];
      }
    }
  }

  /** The in-order prefix of the sections sent to the reduce step. */
  function MergePrefix(sections: seq<string>, budget: int): seq<string> {
    TakeWithin(sections, budget, 0, true)
  }

  /** The merge input is an in-order prefix of the sections; the first section
      is always in it; when it holds more than one section their charge fits
      the budget; and it stops only where the next section would not fit. */
  lemma MergePrefixSpec(sections: seq<string>, budget: int)
    ensures var r := MergePrefix(sections, budget);
      && |r| <= |sections| && r == sections[..|r|]
      && (|sections| > 0 ==> |r| >= 1)
      && (|r| > 1 ==> Charge(r) <= budget)
      && (1 <= |r| < |sections| ==> Charge(r) + |sections[|r|]| + 2 > budget)
  {
    TakeWithinSpec(sections, budget, 0, true);
  }

  /**
   * The loop that builds `merged_sections`: walks the partial notes in
   * order, labels each, and stops before the first section (other than the
   * first one) whose charge would take `merged_chars` past the budget.
   */
  method SelectSections(partials: seq<string>, budget: int) returns (merged: seq<string>)
    ensures merged == MergePrefix(Sections(partials), budget)
  {
    ghost var all := Sections(partials);
    merged := [];
    var mergedChars := 0;
    var i := 0;
    ghost var target := MergePrefix(all, budget);
    assert all[i..] == all;
    assert merged + TakeWithin(all[i..], budget, mergedChars, i == 0) == target;
    while i < |partials|
      invariant 0 <= i <= |partials| && |merged| == i
      invariant mergedChars == Charge(merged)
      invariant merged + TakeWithin(all[i..], budget, mergedChars, i == 0) == target
      decreases |partials| - i
    {
      var section := Section(i + 1, partials[i]);
      var nextLen := |section| + 2;
      SectionsAt(partials, i);
      TakeStep(all, i, budget, mergedChars, i == 0);
      if merged != [] && mergedChars + nextLen > budget {
        assert merged + [] == merged;
        break;
      }
      ChargeSnoc(merged, section);
      ghost var rest := TakeWithin(all[i + 1..], budget, mergedChars + nextLen, false);
      assert TakeWithin(all[i..], budget, mergedChars, i == 0) == [section] + rest;
      ConcatAssoc(merged, [section], rest);
      assert (merged + [section]) + rest == target;
      merged := merged + [section];
      mergedChars := mergedChars + nextLen;
      i := i + 1;
      assert TakeWithin(all[i..], budget, mergedChars, i == 0) == rest;
      assert merged + rest == target;
    }
    if i == |partials| {
      assert all[i..] == [] && merged + [] == merged;
    }
  }

  /** One turn of the selection loop, on the remaining sections `all[i..]`. */
  lemma TakeStep(all: seq<string>, i: nat, budget: int, used: int, first: bool)
    requires i < |all|
    ensures !first && used + |all[i]| + 2 > budget ==> TakeWithin(all[i..], budget, used, first) == []
    ensures first || used + |all[i]| + 2 <= budget ==>
      TakeWithin(all[i..], budget, used, first) == [all[i]] + TakeWithin(all[i + 1..], budget, used + |all[i]| + 2, false)
  {
    assert all[i..][0] == all[i] && all[i..][1..] == all[i + 1..];
  }

  function Sum(xs: seq<int>): int {
    if xs == [] then 0 else xs[0] + Sum(xs[1..])
  }

  lemma {:induction false} SumSnoc(xs: seq<int>, x: int)
    ensures Sum(xs + [x]) == Sum(xs) + x
  {
    if xs == [] {
      assert [x][1..] == [];
    } else {
      assert (xs + [x])[1..] == xs[1..] + [x];
      SumSnoc(xs[1..], x);
    }
  }

  /** The replies of the map step, by chunk position. */
  function ChunkReplies(chat: Chat, systemPrompt: string, chunks: seq<string>): (rs: seq<Result<ChatResult>>)
    ensures |rs| == |chunks|
    ensures forall k :: 0 <= k < |rs| ==> rs[k] == chat(ChunkNotes(systemPrompt, k + 1, |chunks|, chunks[k]))
  {
    seq(|chunks|, k requires 0 <= k < |chunks| => chat(ChunkNotes(systemPrompt, k + 1, |chunks|, chunks[k])))
  }

  predicate AllOk(rs: seq<Result<ChatResult>>) {
    forall k :: 0 <= k < |rs| ==> rs[k].Ok?
  }

  function Contents(rs: seq<Result<ChatResult>>): (r: seq<string>)
    requires AllOk(rs)
    ensures |r| == |rs| && forall k :: 0 <= k < |rs| ==> r[k] == rs[k].value.content
  {
    seq(|rs|, k requires 0 <= k < |rs| && rs[k].Ok? => rs[k].value.content)
  }

  function Tokens(rs: seq<Result<ChatResult>>): (r: seq<int>)
    requires AllOk(rs)
    ensures |r| == |rs| && forall k :: 0 <= k < |rs| ==> r[k] == rs[k].value.totalTokens
  {
    seq(|rs|, k requires 0 <= k < |rs| && rs[k].Ok? => rs[k].value.totalTokens)
  }

  /**
   * The map step with a worker pool: futures are harvested in whatever order
   * they complete (an arbitrary element of `pending` each turn), and each
   * result is written to the slot of its chunk index. The first failure
   * harvested is raised.
   */
  method MapChunksPooled(chat: Chat, systemPrompt: string, chunks: seq<string>)
    returns (r: Result<(seq<string>, seq<int>)>)
    ensures var rs := ChunkReplies(chat, systemPrompt, chunks);
      && (r.Ok? <==> AllOk(rs))
      && (r.Ok? ==> r.value == (Contents(rs), Tokens(rs)))
      && (r.Err? ==> exists k :: 0 <= k < |rs| && rs[k] == Err(r.error))
  {
    ghost var rs := ChunkReplies(chat, systemPrompt, chunks);
    var n := |chunks|;
    var partials := new string[n](_ => "");
    var partialTokens := new int[n](_ => 0);
    var pending: set<nat> := {};
    for k := 0 to n
      invariant forall j: nat :: j in pending <==> j < k
    {
      pending := pending + {k};
    }
    while pending != {}
      invariant forall k :: k in pending ==> k < n
      invariant forall k :: 0 <= k < n && k !in pending ==>
        rs[k].Ok? && partials[k] == rs[k].value.content && partialTokens[k] == rs[k].value.totalTokens
      decreases pending
    {
      var idx :| idx in pending;
      var reply := chat(ChunkNotes(systemPrompt, idx + 1, n, chunks[idx]));
      if reply.Err? {
        return Err(reply.error);
      }
      partials[idx] := reply.value.content;
      partialTokens[idx] := reply.value.totalTokens;
      pending := pending - {idx};
    }
    assert partials[..] == Contents(rs);
    assert partialTokens[..] == Tokens(rs);
    r := Ok((partials[..], partialTokens[..]));
  }

  /** The map step with `chunk_workers <= 1`: chunks in index order, the
      first failure raised. */
  method MapChunksInOrder(chat: Chat, systemPrompt: string, chunks: seq<string>)
    returns (r: Result<(seq<string>, seq<int>)>)
    ensures var rs := ChunkReplies(chat, systemPrompt, chunks);
      && (r.Ok? <==> AllOk(rs))
      && (r.Ok? ==> r.value == (Contents(rs), Tokens(rs)))
      && (r.Err? ==> exists k :: 0 <= k < |rs| && rs[k] == Err(r.error) && AllOk(rs[..k]))
  {
    ghost var rs := ChunkReplies(chat, systemPrompt, chunks);
    var n := |chunks|;
    var partials := new string[n](_ => "");
    var partialTokens := new int[n](_ => 0);
    var idx := 0;
    while idx < n
      invariant 0 <= idx <= n
      invariant AllOk(rs[..idx])
      invariant forall k :: 0 <= k < idx ==>
        partials[k] == rs[k].value.content && partialTokens[k] == rs[k].value.totalTokens
    {
      var reply := chat(ChunkNotes(systemPrompt, idx + 1, n, chunks[idx]));
      if reply.Err? {
        return Err(reply.error);
      }
      partials[idx] := reply.value.content;
      partialTokens[idx] := reply.value.totalTokens;
      idx := idx + 1;
    }
    assert rs[..n] == rs;
    assert partials[..] == Contents(rs);
    assert partialTokens[..] == Tokens(rs);
    r := Ok((partials[..], partialTokens[..]));
  }

  /** The outcome of one chat call turned into the outcome of the paper. */
  function Finish(reply: Result<ChatResult>, chunksUsed: nat, earlierTokens: int): Result<SummaryResult> {
    match reply
    case Ok(rep) => Ok(SummaryResult(rep.content, chunksUsed, earlierTokens + rep.totalTokens))
    case Err(e) => Err(e)
  }

  /** The summary `summarize_paper` succeeds with, or `None` when one of its
      chat calls fails: the whole-paper call for a single chunk, otherwise
      the per-chunk calls and then the merge call. */
  function PaperSummary(chat: Chat, systemPrompt: string, paperText: string, chunkChars: nat,
                        profile: string): Option<SummaryResult>
    requires chunkChars >= 1
  {
    var cs := Chunker.ChunksOf(paperText, chunkChars);
    var rs := ChunkReplies(chat, systemPrompt, cs);
    var outcome :=
      if |cs| == 1 then Finish(chat(WholePaper(systemPrompt, cs[0])), 1, 0)
      else if !AllOk(rs) then Err("")
      else Finish(chat(MergeNotes(systemPrompt, MergePrefix(Sections(Contents(rs)), MergeBudget(profile)))),
                  |cs|, Sum(Tokens(rs)));
    if outcome.Ok? then Some(outcome.value) else None
  }

  /**
   * `summarize_paper`. The ghost `chunks` and `glued` are what `chunk_text`
   * produced. One chunk: exactly one chat call on the whole prompt, and its
   * reply with `chunksUsed = 1`. Several chunks: the result is an error
   * unless every chunk's call succeeds; then the merge call sees the labelled
   * partial notes in chunk order, cut to the profile's budget, and the token
   * count is the sum of every partial call's tokens plus the merge call's.
   */
  method SummarizePaper(chat: Chat, systemPrompt: string, paperText: string, chunkChars: nat,
                        chunkWorkers: int, profile: string)
    returns (r: Result<SummaryResult>, ghost chunks: seq<string>, ghost glued: seq<bool>)
    requires chunkChars >= 1
    ensures var expected := PaperSummary(chat, systemPrompt, paperText, chunkChars, profile);
      (r.Ok? <==> expected.Some?) && (r.Ok? ==> r.value == expected.value)
    ensures |paperText| <= chunkChars ==> r == Finish(chat(WholePaper(systemPrompt, paperText)), 1, 0)
    ensures r.Ok? ==> r.value.chunksUsed >= 1
    ensures chunks == Chunker.ChunksOf(paperText, chunkChars)
    ensures |chunks| >= 1 && |glued| == |chunks| && Chunker.Reassemble(chunks, glued) == paperText
    ensures forall k :: 0 <= k < |chunks| ==> |chunks[k]| <= chunkChars
    ensures |chunks| == 1 ==> r == Finish(chat(WholePaper(systemPrompt, chunks[0])), 1, 0)
    ensures |chunks| > 1 ==>
      var rs := ChunkReplies(chat, systemPrompt, chunks);
      && (!AllOk(rs) ==> r.Err? && exists k :: 0 <= k < |rs| && rs[k] == Err(r.error))
      && (AllOk(rs) ==>
            var merged := MergePrefix(Sections(Contents(rs)), MergeBudget(profile));
            r == Finish(chat(MergeNotes(systemPrompt, merged)), |chunks|, Sum(Tokens(rs))))
  {
    var cs;
    cs, glued := Chunker.ChunkText(paperText, chunkChars);
    chunks := cs;
    var totalTokens := 0;
    var budget := MergeBudget(profile);
    if |cs| == 1 {
      var summary := chat(WholePaper(systemPrompt, cs[0]));
      if summary.Err? {
        return Err(summary.error), chunks, glued;
      }
      totalTokens := totalTokens + summary.value.totalTokens;
      return Ok(SummaryResult(summary.value.content, 1, totalTokens)), chunks, glued;
    }
    r := SummarizeInChunks(chat, systemPrompt, cs, chunkWorkers, budget);
  }

  /**
   * The several-chunk half of `summarize_paper`: the map step (in order, or
   * on a pool when `chunk_workers > 1`), then the selection of sections, then
   * the merge call; tokens are summed over every call.
   */
  method SummarizeInChunks(chat: Chat, systemPrompt: string, cs: seq<string>, chunkWorkers: int, budget: nat)
    returns (r: Result<SummaryResult>)
    ensures var rs := ChunkReplies(chat, systemPrompt, cs);
      && (!AllOk(rs) ==> r.Err? && exists k :: 0 <= k < |rs| && rs[k] == Err(r.error))
      && (AllOk(rs) ==>
            var merged := MergePrefix(Sections(Contents(rs)), budget);
            r == Finish(chat(MergeNotes(systemPrompt, merged)), |cs|, Sum(Tokens(rs))))
  {
    var totalTokens := 0;
    var mapped;
    if chunkWorkers <= 1 {
      mapped := MapChunksInOrder(chat, systemPrompt, cs);
    } else {
      // The pool of PoolSize(chunkWorkers, |cs|) threads only decides the
      // order in which the calls complete, which MapChunksPooled abstracts.
      mapped := MapChunksPooled(chat, systemPrompt, cs);
    }
    if mapped.Err? {
      return Err(mapped.error);
    }
    var (partials, partialTokens) := mapped.value;
    ghost var rs := ChunkReplies(chat, systemPrompt, cs);
    assert partials == Contents(rs) && partialTokens == Tokens(rs);
    totalTokens := totalTokens + Sum(partialTokens);
    var merged := SelectSections(partials, budget);
    var finalSummary := chat(MergeNotes(systemPrompt, merged));
    if finalSummary.Err? {
      return Err(finalSummary.error);
    }
    totalTokens := totalTokens + finalSummary.value.totalTokens;
    r := Ok(SummaryResult(finalSummary.value.content, |cs|, totalTokens));
  }
}
