/**
 * Turning a paper title into the file name the crawler saves it under:
 * characters that file systems reject and runs of whitespace become single
 * spaces, surrounding whitespace and dots are cut, an empty result becomes
 * "untitled", the name is capped at 180 characters and ".pdf" is appended.
 */
module Storage {
  import opened Text

  const MaxFilenameLength := 180

  /** The characters `_INVALID_CHARS` matches: \ / : * ? " < > | */
  predicate IsInvalid(c: char) {
    c == '\\' || c == '/' || c == ':' || c == '*' || c == '?' || c == '"'
    || c == '<' || c == '>' || c == '|'
  }

  /** `normalize_title_to_filename` */
  function NormalizeTitleToFilename(title: string): string {
    Stem(title) + ".pdf"
  }

  /** The two substitutions: runs of invalid characters, then runs of
      whitespace, each become one space. */
  function Spaced(title: string): string {
    Squash(Squash(title, IsInvalid, false), IsSpace, false)
  }

  /** After `strip().strip(".")`, with "untitled" for an empty result. */
  function Named(title: string): string {
    var stripped := StripChar(Strip(Spaced(title)), '.');
    if stripped == "" then "untitled" else stripped
  }

  /** The name cut to 180 characters when longer, then right-stripped. */
  function Stem(title: string): string {
    var named := Named(title);
    if |named| > MaxFilenameLength then RStrip(named[..MaxFilenameLength]) else named
  }

  /** The characters a stem may hold: nothing invalid, and no whitespace
      other than the plain space, never two in a row. */
  predicate SafeText(t: string) {
    && (forall i :: 0 <= i < |t| ==> !IsInvalid(t[i]) && (IsSpace(t[i]) ==> t[i] == ' '))
    && NoDouble(t)
  }

  /** What a file name produced here looks like: a non-empty stem of at
      most 180 safe characters that does not start with a dot, then ".pdf". */
  predicate WellFormedName(r: string) {
    && EndsWith(r, ".pdf")
    && var stem := r[..|r| - 4];
    && 0 < |stem| <= MaxFilenameLength
    && stem[0] != '.'
    && SafeText(stem)
  }

  lemma SafeSlice(t: string, a: nat, b: nat)
    requires SafeText(t) && a <= b <= |t|
    ensures SafeText(t[a..b])
  {
    NoDoubleSlice(t, a, b);
  }

  /** The two substitutions leave safe text. */
  lemma SubstitutedSafe(title: string)
    ensures SafeText(Spaced(title))
  {
    var noInvalid := Squash(title, IsInvalid, false);
    SquashRemoves(title, IsInvalid, false);
    var spaced := Squash(noInvalid, IsSpace, false);
    SquashKeeps(noInvalid, IsSpace, false, IsInvalid);
    SquashRemoves(noInvalid, IsSpace, false);
    SquashNoDouble(noInvalid, IsSpace, false);
  }

  /** Stripping whitespace and then dots keeps a safe slice that does not
      start with a dot. */
  lemma StrippedSafe(spaced: string)
    requires SafeText(spaced)
    ensures var stripped := StripChar(Strip(spaced), '.');
      SafeText(stripped) && (stripped == [] || stripped[0] != '.')
  {
    var s1 := Strip(spaced);
    TrimBothSpec(spaced, IsSpace);
    SafeSlice(spaced, LeadCount(spaced, IsSpace), LeadCount(spaced, IsSpace) + |s1|);
    var s2 := StripChar(s1, '.');
    TrimBothSpec(s1, x => x == '.');
    SafeSlice(s1, LeadCount(s1, x => x == '.'), LeadCount(s1, x => x == '.') + |s2|);
  }

  /** Cutting a long safe stem to 180 characters and stripping the end keeps
      at least its first character. */
  lemma CappedSafe(named: string)
    requires SafeText(named) && |named| > MaxFilenameLength
    ensures var capped := RStrip(named[..MaxFilenameLength]);
      && SafeText(capped) && 0 < |capped| <= MaxFilenameLength
      && capped[0] == named[0]
  {
    var prefix := named[..MaxFilenameLength];
    SafeSlice(named, 0, MaxFilenameLength);
    assert named[0..MaxFilenameLength] == prefix;
    var capped := RStrip(prefix);
    TrimRightSpec(prefix, IsSpace);
    SafeSlice(prefix, 0, |capped|);
    assert prefix[0..|capped|] == capped;
    // Two leading spaces would be a double space, so something is kept.
    assert !DoubleAt(prefix, 0);
  }

  /** The shape of every file name: ends with ".pdf"; the stem is non-empty,
      at most 180 characters, does not start with a dot, holds none of
      \ / : * ? " < > |, and its only whitespace is single spaces. */
  lemma FilenameShape(title: string)
    ensures WellFormedName(NormalizeTitleToFilename(title))
  {
    NamedSafe(title);
    var named := Named(title);
    if |named| > MaxFilenameLength {
      CappedSafe(named);
    }
    var r := NormalizeTitleToFilename(title);
    assert r[..|r| - 4] == Stem(title);
  }

  /** The name before capping is safe, non-empty and starts with no dot. */
  lemma NamedSafe(title: string)
    ensures var named := Named(title);
      SafeText(named) && named != [] && named[0] != '.'
  {
    SubstitutedSafe(title);
    StrippedSafe(Spaced(title));
    UntitledSafe();
  }

  lemma UntitledSafe()
    ensures SafeText("untitled")
  {
    var u := "untitled";
    forall i | 0 <= i < |u| ensures !IsSpace(u[i]) && !IsInvalid(u[i]) {
      assert 'a' <= u[i] <= 'z';
    }
  }

  /** A title that is already a clean stem — safe, non-empty, at most 180
      characters, no whitespace or dot at either end — is kept as it is. */
  lemma CleanTitleKept(title: string)
    requires SafeText(title) && 0 < |title| <= MaxFilenameLength
    requires !IsSpace(title[0]) && !IsSpace(title[|title| - 1])
    requires title[0] != '.' && title[|title| - 1] != '.'
    ensures NormalizeTitleToFilename(title) == title + ".pdf"
  {
    SquashKeepsClean(title, IsInvalid);
    SquashKeepsClean(title, IsSpace);
    TrimBothKeeps(title, IsSpace);
    TrimBothKeeps(title, x => x == '.');
  }

  /** Collapsing runs changes nothing in a text whose only class members are
      single spaces. */
  lemma {:induction false} SquashKeepsClean(s: string, p: char -> bool)
    requires forall i :: 0 <= i < |s| ==> p(s[i]) ==> s[i] == ' '
    requires NoDouble(s)
    ensures Squash(s, p, false) == s
  {
    SquashFixedFrom(s, p, false);
  }

  lemma {:induction false} SquashFixedFrom(s: string, p: char -> bool, prev: bool)
    requires forall i :: 0 <= i < |s| ==> p(s[i]) ==> s[i] == ' '
    requires NoDouble(s)
    requires prev ==> s == [] || !p(s[0])
    ensures Squash(s, p, prev) == s
    decreases |s|
  {
    if s != [] {
      NoDoubleSlice(s, 1, |s|);
      assert s[1..|s|] == s[1..];
      if p(s[0]) && |s| > 1 && p(s[1]) {
        assert DoubleAt(s, 0);
      }
      SquashFixedFrom(s[1..], p, p(s[0]));
      assert [s[0]] + s[1..] == s;
    }
  }

  /** A dot followed by a space at the front of a title leaves the stem
      starting with that space: `strip()` runs before `strip(".")`. */
  lemma LeadingDotLeavesSpace()
    ensures NormalizeTitleToFilename(". a") == " a.pdf"
  {
    assert Squash(". a", IsInvalid, false) == ". a";
    assert Spaced(". a") == ". a";
    TrimBothKeeps(". a", IsSpace);
    assert StripChar(". a", '.') == StripChar(" a", '.');
    TrimBothKeeps(" a", x => x == '.');
  }
}
