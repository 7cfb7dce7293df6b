/**
 * `chunk_text` of src/paperreader_cli/summarizer.py: greedy packing of the
 * paragraphs of a text (pieces between "\n\n") into chunks of bounded length,
 * with over-long paragraphs cut into fixed-size slices.
 */
module Chunker {
  import opened Text

  /** The paragraph separator; joining costs its length, 2, per paragraph. */
  const Sep: string := "\n\n"

  /** The text a sequence of chunks stands for. Chunk k (k > 0) follows chunk
      k-1 directly when `glued[k]` holds (the next slice of one over-long
      paragraph) and after a "\n\n" paragraph break otherwise. */
  function Reassemble(chunks: seq<string>, glued: seq<bool>): string
    requires |glued| == |chunks|
    decreases |chunks|
  {
    if |chunks| == 0 then ""
    else if |chunks| == 1 then chunks[0]
    else
      var n := |chunks| - 1;
      Reassemble(chunks[..n], glued[..n]) + (if glued[n] then "" else Sep) + chunks[n]
  }

  lemma ReassembleSnoc(chunks: seq<string>, glued: seq<bool>, x: string, g: bool)
    requires |glued| == |chunks| >= 1
    ensures Reassemble(chunks + [x], glued + [g]) == Reassemble(chunks, glued) + (if g then "" else Sep) + x
  {
    assert (chunks + [x])[..|chunks|] == chunks;
    assert (glued + [g])[..|chunks|] == glued;
  }

  /** Every chunk respects the limit, and a chunk is glued to its predecessor
      only when that predecessor is a full-size slice. */
  ghost predicate WellCut(chunks: seq<string>, glued: seq<bool>, limit: nat)
    requires |glued| == |chunks|
  {
    && (forall k :: 0 <= k < |chunks| ==> |chunks[k]| <= limit)
    && (forall k :: 0 < k < |chunks| && glued[k] ==> |chunks[k - 1]| == limit)
  }

  lemma WellCutSnoc(chunks: seq<string>, glued: seq<bool>, x: string, g: bool, limit: nat)
    requires |glued| == |chunks| && WellCut(chunks, glued, limit)
    requires |x| <= limit
    requires g ==> |chunks| >= 1 && |chunks[|chunks| - 1]| == limit
    ensures WellCut(chunks + [x], glued + [g], limit)
  {
  }

  /** The slices `range(0, len(p), limit)` cuts an over-long paragraph into:
      pieces of `limit` characters, the last one possibly shorter. */
  function Slices(p: string, limit: nat): (r: seq<string>)
    requires limit >= 1
    ensures |r| >= 1
    decreases |p|
  {
    if |p| <= limit then [p] else [p[..limit]] + Slices(p[limit..], limit)
  }

  /** The slices of `p` from `start` on: the slice `p[start..stop]` and then
      the slices of the rest. */
  lemma SlicesFrom(p: string, start: nat, limit: nat)
    requires limit >= 1 && start < |p|
    ensures var stop := if start + limit < |p| then start + limit else |p|;
      Slices(p[start..], limit) == [p[start..stop]] + (if stop < |p| then Slices(p[stop..], limit) else [])
  {
    var q := p[start..];
    if |q| > limit {
      assert q[..limit] == p[start..start + limit];
      assert q[limit..] == p[start + limit..];
    } else {
      assert q == p[start..|p|];
    }
  }

  /** Appending the next slice keeps the slices still to come in step. */
  lemma SlicesAdvance(out: seq<string>, chunks: seq<string>, p: string, start: nat, limit: nat)
    requires limit >= 1 && start < |p|
    requires out + Slices(p[start..], limit) == chunks + Slices(p, limit)
    ensures var stop := if start + limit < |p| then start + limit else |p|;
      && (stop < |p| ==> (out + [p[start..stop]]) + Slices(p[stop..], limit) == chunks + Slices(p, limit))
      && (stop >= |p| ==> out + [p[start..stop]] == chunks + Slices(p, limit))
  {
    var stop := if start + limit < |p| then start + limit else |p|;
    SlicesFrom(p, start, limit);
    if stop < |p| {
      assert (out + [p[start..stop]]) + Slices(p[stop..], limit) == out + ([p[start..stop]] + Slices(p[stop..], limit));
    } else {
      assert [p[start..stop]] + [] == [p[start..stop]];
    }
  }

  /** The state of the paragraph loop of `chunk_text`: the finished chunks,
      the paragraphs in the buffer and the buffer's charge `current_len`. */
  datatype Packing = Packing(chunks: seq<string>, current: seq<string>, currentLen: int)

  /** The finished chunks followed by the buffer, if it holds anything. */
  function Flushed(s: Packing): seq<string> {
    s.chunks + (if s.current != [] then [Join(s.current, Sep)] else [])
  }

  /**
   * One paragraph of `chunk_text`, greedily: the paragraph joins the buffer
   * exactly when the buffer's charge plus the paragraph plus 2 is within the
   * limit. Otherwise the buffer is flushed as one chunk, and the paragraph
   * is cut into slices when it alone is over the limit, or starts a new
   * buffer charged its own length.
   */
  function PackStep(s: Packing, p: string, limit: nat): Packing
    requires limit >= 1
  {
    if s.currentLen + |p| + 2 <= limit then Packing(s.chunks, s.current + [p], s.currentLen + |p| + 2)
    else if |p| > limit then Packing(Flushed(s) + Slices(p, limit), [], 0)
    else Packing(Flushed(s), [p], |p|)
  }

  /** The paragraph loop over `paras`, from an empty state. */
  function PackAll(paras: seq<string>, limit: nat): Packing
    requires limit >= 1
    decreases |paras|
  {
    if paras == [] then Packing([], [], 0)
    else PackStep(PackAll(paras[..|paras| - 1], limit), paras[|paras| - 1], limit)
  }

  /** The loop over one more paragraph is one more step. */
  lemma PackAllNext(paras: seq<string>, i: nat, limit: nat)
    requires limit >= 1 && i < |paras|
    ensures PackAll(paras[..i + 1], limit) == PackStep(PackAll(paras[..i], limit), paras[i], limit)
  {
    assert paras[..i + 1][..i] == paras[..i];
  }

  /** What `chunk_text` returns: a text that fits whole, otherwise the chunks
      of the paragraph loop over the "\n\n"-separated paragraphs and the
      final flush of the buffer. */
  function ChunksOf(text: string, limit: nat): seq<string>
    requires limit >= 1
  {
    if |text| <= limit then [text] else Flushed(PackAll(Split(text, Sep), limit))
  }

  /** A chunk is the blank-line join of consecutive whole paragraphs, or one
      of the slices of a single paragraph that is over the limit. */
  ghost predicate IsPiece(c: string, paras: seq<string>, limit: nat)
    requires limit >= 1
  {
    || (exists lo, hi :: 0 <= lo < hi <= |paras| && c == Join(paras[lo..hi], Sep))
    || (exists p, k :: 0 <= p < |paras| && |paras[p]| > limit && 0 <= k < |Slices(paras[p], limit)|
                      && c == Slices(paras[p], limit)[k])
  }

  /** Two short paragraphs that do not fit together become two chunks: the
      first is flushed whole before the second starts the buffer. */
  lemma TwoParagraphsExample()
    ensures ChunksOf("ab\n\ncd", 5) == ["ab", "cd"]
  {
    SplitExample();
    assert ["ab", "cd"][..1] == ["ab"];
    assert ["ab"][..0] == [];
    assert PackAll(["ab"], 5) == Packing([], ["ab"], 4);
    assert Join(["ab"], Sep) == "ab";
  }

  /** The text "ab", a blank line, "cd" has the two paragraphs "ab" and "cd". */
  lemma SplitExample()
    ensures Split("ab\n\ncd", Sep) == ["ab", "cd"]
  {
    var text := "ab\n\ncd";
    var cd := "cd";
    SplitTwoChars(cd);
    var tail := text[2..];
    assert tail[..2] == Sep && tail[2..] == cd;
    assert Split(tail, Sep) == ["", cd];
    var b := text[1..];
    SplitPlain(b);
    assert b[1..] == tail && [b[0]] + "" == "b";
    assert ["", cd][1..] == [cd];
    assert Split(b, Sep) == ["b", cd];
    SplitPlain(text);
    assert text[1..] == b && [text[0]] + "b" == "ab";
    assert ["b", cd][1..] == [cd];
  }

  /** "cd" holds no blank line, so it is a single paragraph. */
  lemma SplitTwoChars(cd: string)
    requires cd == "cd"
    ensures Split(cd, Sep) == [cd]
  {
    assert Split("", Sep) == [""];
    var d := cd[1..];
    SplitPlain(d);
    assert d[1..] == "" && [d[0]] + "" == d;
    assert [""][1..] == [];
    assert Split(d, Sep) == [d];
    SplitPlain(cd);
    assert [cd[0]] + d == cd;
    assert [d][1..] == [];
  }

  /** `Split` of a text that does not start with a line break puts its
      first character on the front of the first part. */
  lemma SplitPlain(s: string)
    requires |s| >= 1 && s[0] != '\n'
    ensures Split(s, Sep) == [[s[0]] + Split(s[1..], Sep)[0]] + Split(s[1..], Sep)[1..]
  {
    assert |s| >= |Sep| ==> s[..|Sep|][0] != Sep[0];
  }

  /** Every chunk of `cs` is a piece of `paras`. */
  ghost predicate AllPieces(cs: seq<string>, paras: seq<string>, limit: nat)
    requires limit >= 1
  {
    forall k :: 0 <= k < |cs| ==> IsPiece(cs[k], paras, limit)
  }

  /** The buffer, when it holds anything, holds the paragraphs from some `j` up to `i`. */
  ghost predicate HoldsRun(current: seq<string>, paras: seq<string>, i: nat)
  {
    current != [] ==> exists j :: 0 <= j < i <= |paras| && current == paras[j..i]
  }

  lemma AllPiecesConcat(xs: seq<string>, ys: seq<string>, paras: seq<string>, limit: nat)
    requires limit >= 1 && AllPieces(xs, paras, limit) && AllPieces(ys, paras, limit)
    ensures AllPieces(xs + ys, paras, limit)
  {
    forall k | 0 <= k < |xs + ys| ensures IsPiece((xs + ys)[k], paras, limit) {
      if k < |xs| {
        assert (xs + ys)[k] == xs[k];
      } else {
        assert (xs + ys)[k] == ys[k - |xs|];
      }
    }
  }

  /** Flushing a buffer that holds a run of whole paragraphs adds a piece. */
  lemma FlushedPieces(s: Packing, paras: seq<string>, limit: nat, i: nat)
    requires limit >= 1 && AllPieces(s.chunks, paras, limit) && HoldsRun(s.current, paras, i)
    ensures AllPieces(Flushed(s), paras, limit)
  {
    if s.current != [] {
      var j :| 0 <= j < i <= |paras| && s.current == paras[j..i];
      assert IsPiece(Join(paras[j..i], Sep), paras, limit);
      AllPiecesConcat(s.chunks, [Join(s.current, Sep)], paras, limit);
    }
  }

  /** The slices of an over-long paragraph are pieces. */
  lemma SlicesPieces(paras: seq<string>, limit: nat, p: nat)
    requires limit >= 1 && p < |paras| && |paras[p]| > limit
    ensures AllPieces(Slices(paras[p], limit), paras, limit)
  {
    var sl := Slices(paras[p], limit);
    forall k | 0 <= k < |sl| ensures IsPiece(sl[k], paras, limit) {
      assert 0 <= p < |paras| && |paras[p]| > limit && 0 <= k < |Slices(paras[p], limit)|
             && sl[k] == Slices(paras[p], limit)[k];
    }
  }

  /** After `i` paragraphs: every chunk is a piece, the buffer holds a run
      of paragraphs ending at `i`, and something is chunked or buffered. */
  ghost predicate PiecesSoFar(s: Packing, paras: seq<string>, limit: nat, i: nat)
    requires limit >= 1
  {
    AllPieces(s.chunks, paras, limit) && HoldsRun(s.current, paras, i) && (i > 0 ==> s.chunks != [] || s.current != [])
  }

  /** One paragraph step keeps the chunks pieces and the buffer a run ending at the paragraph. */
  lemma StepPieces(s: Packing, paras: seq<string>, limit: nat, i: nat)
    requires limit >= 1 && 1 <= i <= |paras|
    requires PiecesSoFar(s, paras, limit, i - 1)
    ensures PiecesSoFar(PackStep(s, paras[i - 1], limit), paras, limit, i)
  {
    if s.currentLen + |paras[i - 1]| + 2 <= limit {
      JoinPieces(s, paras, i);
    } else {
      FlushPieces(s, paras, limit, i);
    }
  }

  /** The paragraph joins the buffer: the run grows by one paragraph. */
  lemma JoinPieces(s: Packing, paras: seq<string>, i: nat)
    requires 1 <= i <= |paras| && HoldsRun(s.current, paras, i - 1)
    ensures HoldsRun(s.current + [paras[i - 1]], paras, i)
  {
    if s.current != [] {
      var j :| 0 <= j < i - 1 <= |paras| && s.current == paras[j..i - 1];
      assert paras[j..i] == paras[j..i - 1] + [paras[i - 1]];
      assert 0 <= j < i <= |paras| && s.current + [paras[i - 1]] == paras[j..i];
    } else {
      assert 0 <= i - 1 < i <= |paras| && s.current + [paras[i - 1]] == paras[i - 1..i];
    }
  }

  /** The paragraph does not join: the flushed buffer is a piece, and the
      paragraph's slices are pieces or the paragraph is a run of one. */
  lemma FlushPieces(s: Packing, paras: seq<string>, limit: nat, i: nat)
    requires limit >= 1 && 1 <= i <= |paras|
    requires AllPieces(s.chunks, paras, limit) && HoldsRun(s.current, paras, i - 1)
    requires s.currentLen + |paras[i - 1]| + 2 > limit
    ensures var t := PackStep(s, paras[i - 1], limit);
      AllPieces(t.chunks, paras, limit) && HoldsRun(t.current, paras, i) && (t.chunks != [] || t.current != [])
  {
    var p := paras[i - 1];
    FlushedPieces(s, paras, limit, i - 1);
    if |p| > limit {
      SlicesPieces(paras, limit, i - 1);
      AllPiecesConcat(Flushed(s), Slices(p, limit), paras, limit);
    } else {
      assert [p] == paras[i - 1..i];
    }
  }

  /** After the first `i` paragraphs every finished chunk is a piece, and the
      buffer holds the paragraphs from some `j` up to `i`. */
  lemma {:induction false} PackAllPieces(paras: seq<string>, limit: nat, i: nat)
    requires limit >= 1 && i <= |paras|
    ensures PiecesSoFar(PackAll(paras[..i], limit), paras, limit, i)
  {
    if i > 0 {
      PackAllPieces(paras, limit, i - 1);
      var prev := PackAll(paras[..i - 1], limit);
      PackAllNext(paras, i - 1, limit);
      assert PackAll(paras[..i], limit) == PackStep(prev, paras[i - 1], limit);
      StepPieces(prev, paras, limit, i);
    }
  }

  /** Every chunk `chunk_text` returns for a text over the limit is a piece of
      its paragraphs, and there is at least one chunk. */
  lemma ChunksArePieces(text: string, limit: nat)
    requires limit >= 1
    ensures |ChunksOf(text, limit)| >= 1
    ensures |text| > limit ==> AllPieces(ChunksOf(text, limit), Split(text, Sep), limit)
  {
    if |text| > limit {
      var paras := Split(text, Sep);
      PackAllPieces(paras, limit, |paras|);
      assert paras[..|paras|] == paras;
      FlushedPieces(PackAll(paras, limit), paras, limit, |paras|);
    }
  }

  /**
   * The inner loop of `chunk_text` for an over-long paragraph: appends its
   * consecutive slices of `chunkChars` characters (the last one possibly
   * shorter). The first slice follows the earlier chunks after a paragraph
   * break; each further slice is glued to the previous one.
   */
  method AppendSlices(chunks: seq<string>, ghost glued: seq<bool>, paragraph: string, chunkChars: nat)
    returns (out: seq<string>, ghost outGlued: seq<bool>)
    requires |glued| == |chunks| && WellCut(chunks, glued, chunkChars)
    requires |paragraph| > chunkChars >= 1
    ensures out == chunks + Slices(paragraph, chunkChars)
    ensures |out| >= |chunks| + 2 && out[..|chunks|] == chunks
    ensures forall k :: |chunks| <= k < |out| - 1 ==> |out[k]| == chunkChars
    ensures 1 <= |out[|out| - 1]| <= chunkChars
    ensures |outGlued| == |out| && WellCut(out, outGlued, chunkChars)
    ensures Reassemble(out, outGlued) == (if chunks == [] then "" else Reassemble(chunks, glued) + Sep) + paragraph
  {
    var paraLen := |paragraph|;
    ghost var prefix := if chunks == [] then "" else Reassemble(chunks, glued) + Sep;
    out, outGlued := chunks, glued;
    var start: nat := 0;
    assert paragraph[0..] == paragraph;
    while start < paraLen
      invariant SliceState(chunks, glued, prefix, paragraph, chunkChars, out, outGlued, start)
    {
      out, outGlued := NextSlice(chunks, glued, prefix, paragraph, chunkChars, out, outGlued, start);
      start := start + chunkChars;
    }
    assert paragraph[..paraLen] == paragraph;
    AppendedSlicesShape(chunks, paragraph, chunkChars);
  }

  /** After the earlier chunks, the slices of an over-long paragraph are at
      least two, full-length but for the last, which is not empty. */
  lemma AppendedSlicesShape(chunks: seq<string>, p: string, limit: nat)
    requires |p| > limit >= 1
    ensures var out := chunks + Slices(p, limit);
      && |out| >= |chunks| + 2 && out[..|chunks|] == chunks
      && (forall k :: |chunks| <= k < |out| - 1 ==> |out[k]| == limit)
      && 1 <= |out[|out| - 1]| <= limit
  {
    var sl := Slices(p, limit);
    var out := chunks + sl;
    SlicesShape(p, limit);
    assert out[..|chunks|] == chunks;
    assert out[|out| - 1] == sl[|sl| - 1];
    forall k | |chunks| <= k < |out| - 1
      ensures |out[k]| == limit
    {
      assert out[k] == sl[k - |chunks|];
    }
  }

  /** The slices of `paragraph[start..]` are what `out` still lacks to be
      `chunks` followed by all the slices of `paragraph`. */
  ghost predicate SlicesAhead(chunks: seq<string>, out: seq<string>, paragraph: string, start: nat, limit: nat)
    requires limit >= 1
  {
    if start < |paragraph| then out + Slices(paragraph[start..], limit) == chunks + Slices(paragraph, limit)
    else out == chunks + Slices(paragraph, limit)
  }

  /** The state of the slicing loop of `AppendSlices` once the slices before
      `start` are appended to `chunks`: the chunks stay well cut, the last one
      is full while slices remain, the reassembled text is `prefix` and the
      paragraph up to `start`, and the slices still to come are in step. */
  ghost predicate SliceState(chunks: seq<string>, glued: seq<bool>, prefix: string, paragraph: string, limit: nat,
                             out: seq<string>, outGlued: seq<bool>, start: nat)
    requires limit >= 1
  {
    && |outGlued| == |out| && WellCut(out, outGlued, limit)
    && (start == 0 ==> out == chunks && outGlued == glued)
    && (start > 0 ==> limit <= start < |paragraph| + limit && |out| > |chunks|)
    && (0 < start < |paragraph| ==> |out[|out| - 1]| == limit)
    && (start > 0 ==> Reassemble(out, outGlued) == prefix + paragraph[..if start < |paragraph| then start else |paragraph|])
    && SlicesAhead(chunks, out, paragraph, start, limit)
  }

  /** The body of the slicing loop of `AppendSlices`: appends the slice
      that starts at `start`, glued unless it is the first. */
  method NextSlice(chunks: seq<string>, ghost glued: seq<bool>, ghost prefix: string, paragraph: string, chunkChars: nat,
                   out: seq<string>, ghost outGlued: seq<bool>, start: nat)
    returns (out': seq<string>, ghost outGlued': seq<bool>)
    requires chunkChars >= 1 && start < |paragraph| && |glued| == |chunks|
    requires prefix == if chunks == [] then "" else Reassemble(chunks, glued) + Sep
    requires SliceState(chunks, glued, prefix, paragraph, chunkChars, out, outGlued, start)
    ensures SliceState(chunks, glued, prefix, paragraph, chunkChars, out', outGlued', start + chunkChars)
  {
    var stop := if start + chunkChars < |paragraph| then start + chunkChars else |paragraph|;
    var slice := paragraph[start..stop];
    SlicesAdvance(out, chunks, paragraph, start, chunkChars);
    SliceStep(out, outGlued, prefix, paragraph, start, stop);
    WellCutSnoc(out, outGlued, slice, start > 0, chunkChars);
    out', outGlued' := out + [slice], outGlued + [start > 0];
  }

  /** Every slice but the last has exactly `limit` characters; the last is
      not empty; an over-long paragraph gives at least two slices. */
  lemma {:induction false} SlicesShape(p: string, limit: nat)
    requires limit >= 1 && |p| >= 1
    ensures forall k :: 0 <= k < |Slices(p, limit)| - 1 ==> |Slices(p, limit)[k]| == limit
    ensures 1 <= |Slices(p, limit)[|Slices(p, limit)| - 1]| <= limit
    ensures |p| > limit ==> |Slices(p, limit)| >= 2
    decreases |p|
  {
    if |p| > limit {
      var rest := Slices(p[limit..], limit);
      SlicesShape(p[limit..], limit);
      assert Slices(p, limit) == [p[..limit]] + rest;
      forall k | 0 <= k < |Slices(p, limit)| - 1
        ensures |Slices(p, limit)[k]| == limit
      {
        if k > 0 {
          assert Slices(p, limit)[k] == rest[k - 1];
        }
      }
    }
  }

  /** One turn of the slicing loop: appending the slice `p[start..stop]`
      extends the reassembled text from `p[..start]` to `p[..stop]`. */
  lemma SliceStep(out: seq<string>, g: seq<bool>, prefix: string, p: string, start: nat, stop: nat)
    requires |g| == |out|
    requires start < stop <= |p|
    requires start == 0 ==> prefix == if out == [] then "" else Reassemble(out, g) + Sep
    requires start > 0 ==> out != [] && Reassemble(out, g) == prefix + p[..start]
    ensures Reassemble(out + [p[start..stop]], g + [start > 0]) == prefix + p[..stop]
  {
    var slice := p[start..stop];
    if out == [] {
      assert out + [slice] == [slice] && g + [start > 0] == [false];
      assert slice == p[..stop] && prefix == "";
    } else if start > 0 {
      GluedSliceStep(out, g, prefix, p, start, stop);
    } else {
      ReassembleSnoc(out, g, slice, false);
      assert slice == p[..stop];
    }
  }

  /** A slice after the first one is glued: the reassembled text just grows by it. */
  lemma GluedSliceStep(out: seq<string>, g: seq<bool>, prefix: string, p: string, start: nat, stop: nat)
    requires |g| == |out| >= 1
    requires 0 < start < stop <= |p|
    requires Reassemble(out, g) == prefix + p[..start]
    ensures Reassemble(out + [p[start..stop]], g + [true]) == prefix + p[..stop]
  {
    var slice := p[start..stop];
    var r := Reassemble(out, g);
    ReassembleSnoc(out, g, slice, true);
    assert r + "" == r;
    PrefixGrows(p, start, stop);
    ConcatAssoc(prefix, p[..start], slice);
  }

  /** The prefix up to `stop` is the prefix up to `start` followed by the slice between. */
  lemma PrefixGrows(p: string, start: nat, stop: nat)
    requires start <= stop <= |p|
    ensures p[..start] + p[start..stop] == p[..stop]
  {
  }

  /** The text covered by the finished chunks followed by the paragraphs
      still held in the packing buffer `current`. */
  ghost function Covered(chunks: seq<string>, glued: seq<bool>, current: seq<string>): string
    requires |glued| == |chunks|
  {
    if current == [] then Reassemble(chunks, glued)
    else if chunks == [] then Join(current, Sep)
    else Reassemble(chunks, glued) + Sep + Join(current, Sep)
  }

  /** Adding a paragraph to the buffer extends the covered text by a break
      and the paragraph (when something was covered before). */
  lemma CoveredPush(chunks: seq<string>, glued: seq<bool>, current: seq<string>, p: string)
    requires |glued| == |chunks|
    requires current == [] ==> chunks != []
    ensures Covered(chunks, glued, current + [p]) == Covered(chunks, glued, current) + Sep + p
  {
    if current != [] {
      JoinSnoc(current, p, Sep);
    } else {
      assert current + [p] == [p];
    }
  }

  /** Flushing the buffer as one chunk leaves the covered text unchanged. */
  lemma CoveredFlush(chunks: seq<string>, glued: seq<bool>, current: seq<string>)
    requires |glued| == |chunks| && current != []
    ensures Covered(chunks + [Join(current, Sep)], glued + [false], []) == Covered(chunks, glued, current)
  {
    if chunks != [] {
      ReassembleSnoc(chunks, glued, Join(current, Sep), false);
    }
  }

  /** What the packing loop keeps true of its buffer: `currentLen` is 0 for an
      empty buffer and otherwise at least the buffer's joined length and at
      most the limit. */
  ghost predicate BufferOk(current: seq<string>, currentLen: int, limit: nat) {
    && (current == [] ==> currentLen == 0)
    && (current != [] ==> |Join(current, Sep)| <= currentLen <= limit)
  }

  /**
   * One turn of the paragraph loop of `chunk_text`: the paragraph joins the
   * buffer when the buffer's charge plus the paragraph plus 2 fits;
   * otherwise the buffer is flushed as a chunk and the paragraph either
   * starts a new buffer or, when it alone exceeds the limit, is sliced.
   */
  method PackParagraph(chunks: seq<string>, ghost glued: seq<bool>, current: seq<string>, currentLen: int,
                       paragraph: string, chunkChars: nat)
    returns (chunks': seq<string>, ghost glued': seq<bool>, current': seq<string>, currentLen': int)
    requires chunkChars >= 1
    requires |glued| == |chunks| && WellCut(chunks, glued, chunkChars)
    requires BufferOk(current, currentLen, chunkChars)
    ensures Packing(chunks', current', currentLen') == PackStep(Packing(chunks, current, currentLen), paragraph, chunkChars)
    ensures |glued'| == |chunks'| && WellCut(chunks', glued', chunkChars)
    ensures BufferOk(current', currentLen', chunkChars)
    ensures chunks' != [] || current' != []
    ensures |paragraph| > chunkChars ==> current' == []
    ensures Covered(chunks', glued', current') ==
      if chunks == [] && current == [] then paragraph else Covered(chunks, glued, current) + Sep + paragraph
  {
    var paraLen := |paragraph|;
    if currentLen + paraLen + 2 <= chunkChars {
      if current != [] || chunks != [] {
        CoveredPush(chunks, glued, current, paragraph);
      }
      if current != [] {
        JoinSnoc(current, paragraph, Sep);
      }
      chunks', glued', current', currentLen' := chunks, glued, current + [paragraph], currentLen + paraLen + 2;
    } else {
      chunks', glued', current', currentLen' := FlushAndPlace(chunks, glued, current, currentLen, paragraph, chunkChars);
    }
  }

  /** Flushes a non-empty buffer as one chunk that follows the earlier ones
      after a paragraph break. */
  method Flush(chunks: seq<string>, ghost glued: seq<bool>, current: seq<string>, currentLen: int, chunkChars: nat)
    returns (chunks': seq<string>, ghost glued': seq<bool>)
    requires chunkChars >= 1
    requires |glued| == |chunks| && WellCut(chunks, glued, chunkChars)
    requires BufferOk(current, currentLen, chunkChars)
    ensures chunks' == Flushed(Packing(chunks, current, currentLen))
    ensures |glued'| == |chunks'| && WellCut(chunks', glued', chunkChars)
    ensures Reassemble(chunks', glued') == Covered(chunks, glued, current)
    ensures chunks' == [] <==> chunks == [] && current == []
  {
    chunks', glued' := chunks, glued;
    if current != [] {
      CoveredFlush(chunks, glued, current);
      chunks', glued' := chunks + [Join(current, Sep)], glued + [false];
    }
  }

  /** The else branch of `PackParagraph`: flush the buffer, then start a new one or slice. */
  method FlushAndPlace(chunks: seq<string>, ghost glued: seq<bool>, current: seq<string>, currentLen: int,
                       paragraph: string, chunkChars: nat)
    returns (chunks': seq<string>, ghost glued': seq<bool>, current': seq<string>, currentLen': int)
    requires chunkChars >= 1 && currentLen + |paragraph| + 2 > chunkChars
    requires |glued| == |chunks| && WellCut(chunks, glued, chunkChars)
    requires BufferOk(current, currentLen, chunkChars)
    ensures Packing(chunks', current', currentLen') == PackStep(Packing(chunks, current, currentLen), paragraph, chunkChars)
    ensures |glued'| == |chunks'| && WellCut(chunks', glued', chunkChars)
    ensures BufferOk(current', currentLen', chunkChars)
    ensures chunks' != [] || current' != []
    ensures |paragraph| > chunkChars ==> current' == []
    ensures Covered(chunks', glued', current') ==
      if chunks == [] && current == [] then paragraph else Covered(chunks, glued, current) + Sep + paragraph
  {
    var paraLen := |paragraph|;
    chunks', glued' := Flush(chunks, glued, current, currentLen, chunkChars);
    if paraLen > chunkChars {
      chunks', glued' := AppendSlices(chunks', glued', paragraph, chunkChars);
      current', currentLen' := [], 0;
    } else {
      if chunks' != [] {
        CoveredPush(chunks', glued', [], paragraph);
      }
      current', currentLen' := [paragraph], paraLen;
    }
  }

  /**
   * Splits `text` into chunks of at most `chunkChars` characters. A text
   * that fits is returned whole (so "" gives [""]); otherwise paragraphs are
   * packed greedily, a paragraph that does not fit starts a new chunk, and a
   * paragraph longer than the limit becomes consecutive slices of exactly
   * `chunkChars` characters (the last one possibly shorter). The ghost
   * `glued` records which chunk boundaries are slice boundaries, so that the
   * chunks reassemble to the original text.
   */
  method ChunkText(text: string, chunkChars: nat) returns (chunks: seq<string>, ghost glued: seq<bool>)
    requires chunkChars >= 1
    ensures chunks == ChunksOf(text, chunkChars)
    ensures |text| <= chunkChars ==> chunks == [text]
    ensures |chunks| >= 1
    ensures forall k :: 0 <= k < |chunks| ==> |chunks[k]| <= chunkChars
    ensures |glued| == |chunks| && Reassemble(chunks, glued) == text
    ensures forall k :: 0 < k < |chunks| && glued[k] ==> |chunks[k - 1]| == chunkChars
  {
    if |text| <= chunkChars {
      return [text], [false];
    }
    var paras := Split(text, Sep);
    var current, currentLen;
    chunks, glued, current, currentLen := PackParagraphs(paras, chunkChars);
    JoinSplit(text, Sep);
    chunks, glued := Flush(chunks, glued, current, currentLen, chunkChars);
  }

  /** The paragraph loop of `chunk_text` over `paras`, before the final flush. */
  method PackParagraphs(paras: seq<string>, chunkChars: nat)
    returns (chunks: seq<string>, ghost glued: seq<bool>, current: seq<string>, currentLen: int)
    requires chunkChars >= 1
    ensures PackAll(paras, chunkChars) == Packing(chunks, current, currentLen)
    ensures |glued| == |chunks| && WellCut(chunks, glued, chunkChars)
    ensures BufferOk(current, currentLen, chunkChars)
    ensures Covered(chunks, glued, current) == Join(paras, Sep)
  {
    chunks, glued := [], [];
    current, currentLen := [], 0;
    var i := 0;
    while i < |paras|
      invariant 0 <= i <= |paras|
      invariant |glued| == |chunks| && WellCut(chunks, glued, chunkChars)
      invariant BufferOk(current, currentLen, chunkChars)
      invariant i == 0 <==> chunks == [] && current == []
      invariant Covered(chunks, glued, current) == Join(paras[..i], Sep)
      invariant PackAll(paras[..i], chunkChars) == Packing(chunks, current, currentLen)
    {
      PackAllNext(paras, i, chunkChars);
      JoinNext(paras, i);
      chunks, glued, current, currentLen := PackParagraph(chunks, glued, current, currentLen, paras[i], chunkChars);
      i := i + 1;
    }
    assert paras[..|paras|] == paras;
  }

  /** Joining one more paragraph adds a blank line and the paragraph. */
  lemma JoinNext(paras: seq<string>, i: nat)
    requires i < |paras|
    ensures Join(paras[..i + 1], Sep) == if i == 0 then paras[0] else Join(paras[..i], Sep) + Sep + paras[i]
  {
    assert paras[..i + 1] == paras[..i] + [paras[i]];
    if i > 0 {
      JoinSnoc(paras[..i], paras[i], Sep);
    } else {
      assert paras[..1] == [paras[0]];
    }
  }
}
