/**
 * Turning the text of a PDF's pages into the text that is summarised: the
 * non-empty pages are joined with single newlines, the result is cleaned
 * (line endings unified, tabs and lone line breaks turned into spaces,
 * paragraph breaks normalised to one blank line, runs of spaces collapsed,
 * the ends stripped) and cut to the character limit.
 */
module PdfLoader {
  import opened Wrappers
  import opened Text

  // ---------------------------------------------------------------------
  // The cleaning pipeline, one step per substitution.

  /** `replace("\r\n", "\n")` */
  function ReplaceCrLf(s: string): string
    decreases |s|
  {
    if s == [] then []
    else if |s| >= 2 && s[0] == '\r' && s[1] == '\n' then "\n" + ReplaceCrLf(s[2..])
    else [s[0]] + ReplaceCrLf(s[1..])
  }

  /** `replace("\r", "\n")` */
  function ReplaceCr(s: string): (r: string)
    ensures |r| == |s|
    ensures forall i :: 0 <= i < |s| ==> r[i] == if s[i] == '\r' then '\n' else s[i]
  {
    seq(|s|, i requires 0 <= i < |s| => if s[i] == '\r' then '\n' else s[i])
  }

  predicate IsTabLike(c: char) {
    c == '\t' || c == '\U{000C}' || c == '\U{000B}'
  }

  predicate IsBlank(c: char) {
    c == ' '
  }

  predicate IsNewline(c: char) {
    c == '\n'
  }

  /** A line break with no line break on either side. */
  predicate IsLone(s: string, i: nat)
    requires i < |s|
  {
    s[i] == '\n' && (i == 0 || s[i - 1] != '\n') && (i + 1 == |s| || s[i + 1] != '\n')
  }

  /** `re.sub(r"(?<!\n)\n(?!\n)", " ", s)` */
  function LoneToSpace(s: string): (r: string)
    ensures |r| == |s|
    ensures forall i :: 0 <= i < |s| ==> r[i] == if IsLone(s, i) then ' ' else s[i]
  {
    seq(|s|, i requires 0 <= i < |s| => if IsLone(s, i) then ' ' else s[i])
  }

  /** `re.sub(r"\n{3,}", "\n\n", s)`: a run of three or more line breaks
      becomes exactly two. */
  function CapNewlines(s: string): string
    decreases |s|
  {
    if s == [] then []
    else if s[0] != '\n' then [s[0]] + CapNewlines(s[1..])
    else
      var k := LeadCount(s, IsNewline);
      assert k >= 1;
      (if k >= 3 then "\n\n" else s[..k]) + CapNewlines(s[k..])
  }

  /** `PDFLoader._clean_text` */
  function CleanText(text: string): string {
    var t1 := ReplaceCr(ReplaceCrLf(text));
    var t2 := Squash(t1, IsTabLike, false);
    var t3 := LoneToSpace(t2);
    var t4 := CapNewlines(t3);
    var t5 := Squash(t4, IsBlank, false);
    Strip(t5)
  }

  // ---------------------------------------------------------------------
  // The shape of cleaned text.

  predicate IsControl(c: char) {
    c == '\r' || IsTabLike(c)
  }

  /** No carriage return, tab, form feed or vertical tab. */
  predicate NoControl(t: string) {
    forall i :: 0 <= i < |t| ==> !IsControl(t[i])
  }

  /** A line break sits just before or just after position `i`. */
  predicate NewlineNext(t: string, i: nat)
    requires i < |t|
  {
    (0 < i && t[i - 1] == '\n') || (i + 1 < |t| && t[i + 1] == '\n')
  }

  /** Every line break has a line break next to it. */
  predicate NoLone(t: string) {
    forall i :: 0 <= i < |t| && t[i] == '\n' ==> NewlineNext(t, i)
  }

  predicate TripleAt(t: string, i: nat)
    requires i + 2 < |t|
  {
    t[i] == '\n' && t[i + 1] == '\n' && t[i + 2] == '\n'
  }

  /** No three line breaks in a row. */
  predicate NoTriple(t: string) {
    forall i :: 0 <= i < |t| - 2 ==> !TripleAt(t, i)
  }

  /** No whitespace at either end. */
  predicate Stripped(t: string) {
    t == [] || (!IsSpace(t[0]) && !IsSpace(t[|t| - 1]))
  }

  /** The shape `_clean_text` produces: together `NoLone` and `NoTriple` say
      that every line break belongs to a run of exactly two. */
  predicate Cleaned(t: string) {
    NoControl(t) && NoLone(t) && NoTriple(t) && NoDouble(t) && Stripped(t)
  }

  /** Line breaks come in pairs, read from the left. */
  predicate Paired(t: string)
    decreases |t|
  {
    t == []
    || (t[0] != '\n' && Paired(t[1..]))
    || (|t| >= 2 && t[0] == '\n' && t[1] == '\n' && (|t| == 2 || t[2] != '\n') && Paired(t[2..]))
  }

  // ---------------------------------------------------------------------
  // Each step's contribution.



  lemma NoTripleSuffix(s: string, k: nat)
    requires NoTriple(s) && k <= |s|
    ensures NoTriple(s[k..])
  {
    forall i | 0 <= i < |s| - k - 2 ensures !TripleAt(s[k..], i) {
      assert !TripleAt(s, k + i);
    }
  }

  lemma SquashHead(s: string, p: char -> bool)
    requires s != [] && s[0] != '\n' && !p('\n')
    ensures var r := Squash(s, p, false); r == [] || r[0] != '\n'
  {
  }

  /** Collapsing spaces keeps line breaks paired. */
  lemma {:induction false} SquashPaired(s: string, p: char -> bool, prev: bool)
    requires !p('\n')
    requires Paired(s)
    ensures Paired(Squash(s, p, prev))
    decreases |s|
  {
    if s == [] {
    } else if s[0] != '\n' {
      var rest := Squash(s[1..], p, p(s[0]));
      SquashPaired(s[1..], p, p(s[0]));
      if !(p(s[0]) && prev) {
        var c := if p(s[0]) then ' ' else s[0];
        assert Squash(s, p, prev) == [c] + rest;
        assert ([c] + rest)[1..] == rest;
      } else {
        assert Squash(s, p, prev) == rest;
      }
    } else {
      var rest := Squash(s[2..], p, false);
      SquashPaired(s[2..], p, false);
      assert Squash(s, p, prev) == "\n\n" + rest;
      if s[2..] != [] {
        SquashHead(s[2..], p);
      }
      assert ("\n\n" + rest)[2..] == rest;
    }
  }

  lemma LoneToSpaceNoLone(s: string)
    ensures NoLone(LoneToSpace(s))
  {
    var r := LoneToSpace(s);
    forall i | 0 <= i < |r| && r[i] == '\n'
      ensures NewlineNext(r, i)
    {
      assert s[i] == '\n' && !IsLone(s, i);
      if 0 < i && s[i - 1] == '\n' {
        assert !IsLone(s, i - 1);
      } else {
        assert !IsLone(s, i + 1);
      }
    }
  }

  lemma LoneToSpaceKeeps(s: string, bad: char -> bool)
    requires !bad(' ')
    requires forall i :: 0 <= i < |s| ==> !bad(s[i])
    ensures forall i :: 0 <= i < |LoneToSpace(s)| ==> !bad(LoneToSpace(s)[i])
  {
  }

  /** A run of line breaks at the front of `s`: its length and what follows. */
  lemma NewlineRun(s: string)
    requires s != [] && s[0] == '\n'
    ensures var k := LeadCount(s, IsNewline);
      1 <= k <= |s| && (forall i :: 0 <= i < k ==> s[i] == '\n') && (k < |s| ==> s[k] != '\n')
  {
    LeadCountAll(s, IsNewline);
    LeadCountStop(s, IsNewline);
  }

  lemma {:induction false} CapKeeps(s: string, bad: char -> bool)
    requires forall i :: 0 <= i < |s| ==> !bad(s[i])
    ensures forall i :: 0 <= i < |CapNewlines(s)| ==> !bad(CapNewlines(s)[i])
    decreases |s|
  {
    if s != [] {
      if s[0] != '\n' {
        CapKeeps(s[1..], bad);
      } else {
        var k := LeadCount(s, IsNewline);
        NewlineRun(s);
        CapKeeps(s[k..], bad);
      }
    }
  }

  /** Line breaks that are never alone come out in pairs once longer runs
      are cut to two. */
  lemma {:induction false} CapPaired(s: string)
    requires NoLone(s)
    ensures Paired(CapNewlines(s))
    decreases |s|
  {
    if s == [] {
    } else if s[0] != '\n' {
      assert NoLone(s[1..]) by {
        var u := s[1..];
        forall i | 0 <= i < |u| && u[i] == '\n'
          ensures NewlineNext(u, i)
        {
          assert s[i + 1] == '\n' && NewlineNext(s, i + 1);
          if 0 < i { assert u[i - 1] == s[i]; }
          if i + 1 < |u| { assert u[i + 1] == s[i + 2]; }
        }
      }
      CapPaired(s[1..]);
      var rest := CapNewlines(s[1..]);
      assert CapNewlines(s) == [s[0]] + rest;
      assert ([s[0]] + rest)[1..] == rest;
    } else {
      var k := LeadCount(s, IsNewline);
      NewlineRun(s);
      assert k >= 2 by {
        assert NewlineNext(s, 0);
      }
      var tail := s[k..];
      assert NoLone(tail) by {
        forall i | 0 <= i < |tail| && tail[i] == '\n'
          ensures NewlineNext(tail, i)
        {
          assert s[k + i] == '\n' && NewlineNext(s, k + i);
          if 0 < i { assert tail[i - 1] == s[k + i - 1]; }
          if i + 1 < |tail| { assert tail[i + 1] == s[k + i + 1]; }
        }
      }
      CapPaired(tail);
      var rest := CapNewlines(tail);
      assert (if k >= 3 then "\n\n" else s[..k]) == "\n\n";
      assert CapNewlines(s) == "\n\n" + rest;
      assert rest == [] || rest[0] != '\n';
      assert ("\n\n" + rest)[2..] == rest;
    }
  }

  /** The paired reading implies the index-wise one. */
  lemma {:induction false} PairedNoLoneNoTriple(t: string)
    requires Paired(t)
    ensures NoLone(t) && NoTriple(t)
    decreases |t|
  {
    if t == [] {
    } else if t[0] != '\n' && Paired(t[1..]) {
      var u := t[1..];
      PairedNoLoneNoTriple(u);
      forall i | 0 < i < |t| && t[i] == '\n'
        ensures NewlineNext(t, i)
      {
        assert u[i - 1] == '\n' && NewlineNext(u, i - 1);
        if 1 < i { assert t[i - 1] == u[i - 2]; }
        if i + 1 < |t| { assert t[i + 1] == u[i]; }
      }
      forall i | 0 < i < |t| - 2 ensures !TripleAt(t, i) {
        assert !TripleAt(u, i - 1);
        assert t[i] == u[i - 1] && t[i + 1] == u[i] && t[i + 2] == u[i + 1];
      }
    } else {
      var u := t[2..];
      PairedNoLoneNoTriple(u);
      forall i | 2 < i < |t| && t[i] == '\n'
        ensures NewlineNext(t, i)
      {
        assert u[i - 2] == '\n' && NewlineNext(u, i - 2);
        if 3 < i { assert t[i - 1] == u[i - 3]; }
        if i + 1 < |t| { assert t[i + 1] == u[i - 1]; }
      }
      forall i | 1 < i < |t| - 2 ensures !TripleAt(t, i) {
        assert !TripleAt(u, i - 2);
        assert t[i] == u[i - 2] && t[i + 1] == u[i - 1] && t[i + 2] == u[i];
      }
    }
  }

  /** Stripping keeps every index-wise property and adds `Stripped`. */
  lemma StripShape(s: string)
    requires NoControl(s) && NoLone(s) && NoTriple(s) && NoDouble(s)
    ensures Cleaned(Strip(s))
  {
    var r := Strip(s);
    var k := LeadCount(s, IsSpace);
    TrimBothSpec(s, IsSpace);
    assert forall i :: 0 <= i < |r| ==> r[i] == s[k + i];
    forall i | 0 <= i < |r| && r[i] == '\n'
      ensures NewlineNext(r, i)
    {
      assert 0 < i < |r| - 1;
      assert s[k + i] == '\n' && NewlineNext(s, k + i);
    }
    forall i | 0 <= i < |r| - 2 ensures !TripleAt(r, i) {
      assert !TripleAt(s, k + i);
    }
    forall i | 0 <= i < |r| - 1 ensures !DoubleAt(r, i) {
      assert !DoubleAt(s, k + i);
    }
  }

  /** `_clean_text` output has the cleaned shape. */
  lemma CleanTextShape(text: string)
    ensures Cleaned(CleanText(text))
  {
    var t1 := ReplaceCr(ReplaceCrLf(text));
    var t2 := Squash(t1, IsTabLike, false);
    var t3 := LoneToSpace(t2);
    var t4 := CapNewlines(t3);
    var t5 := Squash(t4, IsBlank, false);
    assert forall i :: 0 <= i < |t1| ==> t1[i] != '\r';
    SquashKeeps(t1, IsTabLike, false, c => c == '\r');
    SquashRemoves(t1, IsTabLike, false);
    assert NoControl(t2);
    LoneToSpaceKeeps(t2, IsControl);
    LoneToSpaceNoLone(t2);
    CapKeeps(t3, IsControl);
    CapPaired(t3);
    SquashKeeps(t4, IsBlank, false, IsControl);
    SquashPaired(t4, IsBlank, false);
    SquashNoDouble(t4, IsBlank, false);
    PairedNoLoneNoTriple(t5);
    StripShape(t5);
  }

  // ---------------------------------------------------------------------
  // Idempotence: every step leaves cleaned text as it is.

  lemma {:induction false} ReplaceCrLfFixed(s: string)
    requires forall i :: 0 <= i < |s| ==> s[i] != '\r'
    ensures ReplaceCrLf(s) == s
    decreases |s|
  {
    if s != [] {
      ReplaceCrLfFixed(s[1..]);
      assert [s[0]] + s[1..] == s;
    }
  }

  lemma {:induction false} SquashFixed(s: string, p: char -> bool, prev: bool)
    requires forall i :: 0 <= i < |s| ==> !p(s[i])
    ensures Squash(s, p, prev) == s
    decreases |s|
  {
    if s != [] {
      SquashFixed(s[1..], p, false);
      assert [s[0]] + s[1..] == s;
    }
  }

  lemma {:induction false} SquashBlankFixed(s: string, prev: bool)
    requires NoDouble(s)
    requires prev ==> s == [] || s[0] != ' '
    ensures Squash(s, IsBlank, prev) == s
    decreases |s|
  {
    if s != [] {
      NoDoubleSlice(s, 1, |s|);
      assert s[1..|s|] == s[1..];
      if IsBlank(s[0]) && |s| > 1 {
        assert !DoubleAt(s, 0);
      }
      SquashBlankFixed(s[1..], IsBlank(s[0]));
      assert [s[0]] + s[1..] == s;
    }
  }

  lemma {:induction false} CapFixed(s: string)
    requires NoTriple(s)
    ensures CapNewlines(s) == s
    decreases |s|
  {
    if s == [] {
    } else if s[0] != '\n' {
      NoTripleSuffix(s, 1);
      CapFixed(s[1..]);
      assert [s[0]] + s[1..] == s;
    } else {
      var k := LeadCount(s, IsNewline);
      NewlineRun(s);
      if |s| >= 3 {
        assert !TripleAt(s, 0);
      }
      assert k <= 2;
      NoTripleSuffix(s, k);
      CapFixed(s[k..]);
      assert s[..k] + s[k..] == s;
    }
  }

  /** Cleaned text passes through every step unchanged. */
  lemma CleanFixed(t: string)
    requires Cleaned(t)
    ensures CleanText(t) == t
  {
    ReplaceCrLfFixed(t);
    assert ReplaceCr(t) == t;
    SquashFixed(t, IsTabLike, false);
    assert LoneToSpace(t) == t;
    CapFixed(t);
    SquashBlankFixed(t, false);
    TrimBothKeeps(t, IsSpace);
  }

  /** `_clean_text` is idempotent. */
  lemma CleanTextIdempotent(text: string)
    ensures CleanText(CleanText(text)) == CleanText(text)
  {
    CleanTextShape(text);
    CleanFixed(CleanText(text));
  }

  // ---------------------------------------------------------------------
  // Page joining and truncation.

  /** The pages with some text, in order. */
  function NonEmptyPages(pages: seq<string>): (r: seq<string>)
    ensures forall i :: 0 <= i < |r| ==> r[i] != ""
    decreases |pages|
  {
    if pages == [] then []
    else
      var last := pages[|pages| - 1];
      NonEmptyPages(pages[..|pages| - 1]) + (if last == "" then [] else [last])
  }

  /** Joining non-empty parts gives the empty string only for no parts. */
  lemma JoinEmpty(parts: seq<string>, sep: string)
    requires forall i :: 0 <= i < |parts| ==> parts[i] != ""
    ensures Join(parts, sep) == "" <==> parts == []
  {
    if |parts| >= 2 {
      assert |Join(parts, sep)| >= |parts[0]|;
    }
  }

  /** Reading one more page: an empty page adds nothing; otherwise the page
      is appended, after a line break unless nothing was written yet. */
  lemma JoinNextPage(pages: seq<string>, i: nat)
    requires i < |pages|
    ensures var before := Join(NonEmptyPages(pages[..i]), "\n");
      Join(NonEmptyPages(pages[..i + 1]), "\n")
      == if pages[i] == "" then before
         else if before == "" then pages[i]
         else before + "\n" + pages[i]
  {
    var done := NonEmptyPages(pages[..i]);
    assert pages[..i + 1][..i] == pages[..i];
    assert NonEmptyPages(pages[..i + 1]) == done + (if pages[i] == "" then [] else [pages[i]]);
    if pages[i] == "" {
      assert done + [] == done;
    } else {
      JoinEmpty(done, "\n");
      if done != [] {
        JoinSnoc(done, pages[i], "\n");
      } else {
        assert done + [pages[i]] == [pages[i]];
      }
    }
  }

  /** `text[:n]` with Python's reading of a negative bound. */
  function SliceTo(s: string, n: int): (r: string)
    ensures |r| <= |s| && r == s[..|r|]
    ensures n >= 0 ==> |r| == if n < |s| then n else |s|
  {
    if n >= 0 then (if n < |s| then s[..n] else s)
    else if |s| + n > 0 then s[..|s| + n] else ""
  }

  /** What a PDF library yields: no document, or the text of each page. */
  datatype PdfDocument = Unopenable | Pages(pages: seq<string>)

  class PdfLoaderState {
    const maxChars: int

    constructor(maxChars: int)
      ensures this.maxChars == maxChars
    {
      this.maxChars := maxChars;
    }

    /** `load_text`: the cleaned text of the non-empty pages joined by single
        line breaks, cut to `maxChars`, and whether anything was cut. */
    method LoadText(doc: PdfDocument) returns (r: Result<(string, bool)>)
      ensures doc.Unopenable? <==> r.Err?
      ensures doc.Pages? ==>
        var cleaned := CleanText(Join(NonEmptyPages(doc.pages), "\n"));
        && r.value.1 == (|cleaned| > maxChars)
        && r.value.0 == (if |cleaned| > maxChars then SliceTo(cleaned, maxChars) else cleaned)
    {
      if doc.Unopenable? {
        return Err("ValueError: Failed to open PDF");
      }
      var pages := doc.pages;
      var buffer := "";
      var i := 0;
      while i < |pages|
        invariant 0 <= i <= |pages|
        invariant buffer == Join(NonEmptyPages(pages[..i]), "\n")
      {
        var pageText := pages[i];
        JoinNextPage(pages, i);
        if pageText == "" {
          i := i + 1;
          continue;
        }
        if |buffer| > 0 {
          buffer := buffer + "\n";
        }
        buffer := buffer + pageText;
        i := i + 1;
      }
      assert pages[..i] == pages;
      var cleaned := CleanText(buffer);
      var truncated := |cleaned| > maxChars;
      if truncated {
        cleaned := SliceTo(cleaned, maxChars);
      }
      r := Ok((cleaned, truncated));
    }
  }
}
