/**
 * String helpers with the semantics of the Python built-ins the repository
 * relies on: `str.isspace`, `strip`/`lstrip`/`rstrip` (with and without an
 * argument), `str.split(sep)`, `sep.join(parts)`, `str(int)` and ASCII
 * lower-casing.
 */
module Text {

  /** Python's `str.isspace()` for one character (the Unicode White_Space set
      that CPython uses; also what the `\s` regex class matches). */
  predicate IsSpace(c: char) {
    c == ' ' || c == '\t' || c == '\n' || c == '\r' || c == '\U{000B}' || c == '\U{000C}'
    || c == '\U{001C}' || c == '\U{001D}' || c == '\U{001E}' || c == '\U{001F}'
    || c == '\U{0085}' || c == '\U{00A0}' || c == '\U{1680}'
    || ('\U{2000}' <= c <= '\U{200A}')
    || c == '\U{2028}' || c == '\U{2029}' || c == '\U{202F}' || c == '\U{205F}' || c == '\U{3000}'
  }

  /** The length of the longest prefix of `s` whose characters all satisfy `drop`. */
  function LeadCount(s: string, drop: char -> bool): (n: nat)
    ensures n <= |s|
    decreases |s|
  {
    if |s| > 0 && drop(s[0]) then 1 + LeadCount(s[1..], drop) else 0
  }

  /** Every character LeadCount counts satisfies the predicate. */
  lemma {:induction false} LeadCountAll(s: string, drop: char -> bool)
    ensures forall i :: 0 <= i < LeadCount(s, drop) ==> drop(s[i])
    decreases |s|
  {
    if |s| > 0 && drop(s[0]) {
      LeadCountAll(s[1..], drop);
      forall i | 0 <= i < LeadCount(s, drop) ensures drop(s[i]) {
        if i > 0 {
          assert s[i] == s[1..][i - 1];
        }
      }
    }
  }

  /** The character just after the counted run does not satisfy the predicate. */
  lemma {:induction false} LeadCountStop(s: string, drop: char -> bool)
    ensures LeadCount(s, drop) < |s| ==> !drop(s[LeadCount(s, drop)])
    decreases |s|
  {
    if |s| > 0 && drop(s[0]) {
      LeadCountStop(s[1..], drop);
      if LeadCount(s, drop) < |s| {
        assert s[LeadCount(s, drop)] == s[1..][LeadCount(s[1..], drop)];
      }
    }
  }

  /** A slice of a suffix is a slice of the original. */
  lemma SliceOfDrop<T>(s: seq<T>, a: nat, c: nat, d: nat)
    requires a <= |s| && c <= d <= |s| - a
    ensures s[a..][c..d] == s[a + c..a + d]
  {
    forall i | 0 <= i < d - c ensures s[a..][c..d][i] == s[a + c..a + d][i] {
      assert s[a..][c..d][i] == s[a..][c + i];
    }
  }

  /** A slice of a prefix is a slice of the original. */
  lemma SliceOfTake<T>(s: seq<T>, n: nat, c: nat, d: nat)
    requires c <= d <= n <= |s|
    ensures s[..n][c..d] == s[c..d]
  {
    forall i | 0 <= i < d - c ensures s[..n][c..d][i] == s[c..d][i] {
      assert s[..n][c..d][i] == s[..n][c + i];
    }
  }

  /** Cuts droppable characters from the front, then from the back, one at a
      time; a string made only of droppable characters becomes empty. */
  function TrimBoth(s: string, drop: char -> bool): string
    decreases |s|
  {
    if |s| > 0 && drop(s[0]) then TrimBoth(s[1..], drop)
    else if |s| > 0 && drop(s[|s| - 1]) then TrimBoth(s[..|s| - 1], drop)
    else s
  }

  /** `r` is what is left of `s` after cutting `k` droppable characters from
      the front and only droppable ones from the back, and `r` neither starts
      nor ends with a droppable character. */
  ghost predicate TrimmedAt(s: string, drop: char -> bool, r: string, k: nat) {
    && k + |r| <= |s| && r == s[k..k + |r|]
    && (r == [] || (!drop(r[0]) && !drop(r[|r| - 1])))
    && (forall i :: 0 <= i < k ==> drop(s[i]))
    && (forall i :: k + |r| <= i < |s| ==> drop(s[i]))
  }

  /** What `TrimBoth` keeps: the slice of `s` that starts after the longest
      droppable prefix, with nothing droppable at either end, and only
      droppable characters cut on either side. */
  lemma {:induction false} TrimBothSpec(s: string, drop: char -> bool)
    ensures TrimmedAt(s, drop, TrimBoth(s, drop), LeadCount(s, drop))
    decreases |s|
  {
    if |s| > 0 && drop(s[0]) {
      TrimBothSpec(s[1..], drop);
      TrimFront(s, drop);
    } else if |s| > 0 && drop(s[|s| - 1]) {
      TrimBothSpec(s[..|s| - 1], drop);
      TrimBack(s, drop);
    }
  }

  /** The step of `TrimBothSpec` that cuts a droppable first character. */
  lemma TrimFront(s: string, drop: char -> bool)
    requires |s| > 0 && drop(s[0])
    requires TrimmedAt(s[1..], drop, TrimBoth(s[1..], drop), LeadCount(s[1..], drop))
    ensures TrimmedAt(s, drop, TrimBoth(s, drop), LeadCount(s, drop))
  {
    var t := s[1..];
    var r, k := TrimBoth(t, drop), LeadCount(t, drop);
    assert TrimBoth(s, drop) == r && LeadCount(s, drop) == k + 1;
    SliceOfDrop(s, 1, k, k + |r|);
    forall i | k + 1 + |r| <= i < |s| ensures drop(s[i]) {
      assert s[i] == t[i - 1];
    }
    forall i | 0 <= i < k + 1 ensures drop(s[i]) {
      if i > 0 { assert s[i] == t[i - 1]; }
    }
  }

  /** The step of `TrimBothSpec` that cuts a droppable last character when the
      first one stays. */
  lemma TrimBack(s: string, drop: char -> bool)
    requires |s| > 0 && !drop(s[0]) && drop(s[|s| - 1])
    requires TrimmedAt(s[..|s| - 1], drop, TrimBoth(s[..|s| - 1], drop), LeadCount(s[..|s| - 1], drop))
    ensures TrimmedAt(s, drop, TrimBoth(s, drop), LeadCount(s, drop))
  {
    var t := s[..|s| - 1];
    var r := TrimBoth(t, drop);
    assert LeadCount(t, drop) == 0 by {
      if |t| > 0 { assert t[0] == s[0]; }
    }
    assert TrimBoth(s, drop) == r && LeadCount(s, drop) == 0;
    SliceOfTake(s, |s| - 1, 0, |r|);
    forall i | |r| <= i < |s| ensures drop(s[i]) {
      if i < |s| - 1 { assert s[i] == t[i]; }
    }
  }

  /** Trimming is idempotent: what is left has nothing droppable at either end. */
  lemma TrimBothTwice(s: string, drop: char -> bool)
    ensures TrimBoth(TrimBoth(s, drop), drop) == TrimBoth(s, drop)
  {
    TrimBothSpec(s, drop);
  }

  /** A string that neither starts nor ends with a droppable character is
      left as it is. */
  lemma TrimBothKeeps(s: string, drop: char -> bool)
    requires s == [] || (!drop(s[0]) && !drop(s[|s| - 1]))
    ensures TrimBoth(s, drop) == s
  {
  }

  /** `s.strip()` */
  function Strip(s: string): string {
    TrimBoth(s, IsSpace)
  }

  /** `s.strip(c)` for a one-character argument. */
  function StripChar(s: string, c: char): string {
    TrimBoth(s, x => x == c)
  }

  /** Cuts droppable characters from the back, one at a time. */
  function TrimRight(s: string, drop: char -> bool): (r: string)
    ensures |r| <= |s|
    decreases |s|
  {
    if |s| > 0 && drop(s[|s| - 1]) then TrimRight(s[..|s| - 1], drop) else s
  }

  /** What `TrimRight` keeps: a prefix of `s` that does not end with a
      droppable character, and only droppable characters are cut. */
  lemma {:induction false} TrimRightSpec(s: string, drop: char -> bool)
    ensures var r := TrimRight(s, drop);
      && r == s[..|r|]
      && (r == [] || !drop(r[|r| - 1]))
      && (forall i :: |r| <= i < |s| ==> drop(s[i]))
    decreases |s|
  {
    if |s| > 0 && drop(s[|s| - 1]) {
      var t := s[..|s| - 1];
      var r := TrimRight(t, drop);
      TrimRightSpec(t, drop);
      SliceOfTake(s, |s| - 1, 0, |r|);
      forall i | |r| <= i < |s| ensures drop(s[i]) {
        if i < |s| - 1 { assert s[i] == t[i]; }
      }
    }
  }

  /** `s.rstrip()` */
  function RStrip(s: string): string {
    TrimRight(s, IsSpace)
  }

  /** `s.rstrip(c)` for a one-character argument. */
  function RStripChar(s: string, c: char): string {
    TrimRight(s, x => x == c)
  }

  function EndsWith(s: string, suffix: string): bool {
    |suffix| <= |s| && s[|s| - |suffix|..] == suffix
  }

  /** ASCII lower-casing (`str.lower()` on the characters the model compares). */
  function Lower(s: string): (r: string)
    ensures |r| == |s|
    ensures forall i :: 0 <= i < |s| ==> r[i] == LowerChar(s[i])
  {
    seq(|s|, i requires 0 <= i < |s| => LowerChar(s[i]))
  }

  function LowerChar(c: char): char {
    if 'A' <= c <= 'Z' then (c as int + 32) as char else c
  }

  /** `sep.join(parts)` */
  function Join(parts: seq<string>, sep: string): string
    decreases |parts|
  {
    if |parts| == 0 then ""
    else if |parts| == 1 then parts[0]
    else parts[0] + sep + Join(parts[1..], sep)
  }

  /** Joining one more part appends the separator and that part. */
  lemma {:induction false} JoinSnoc(parts: seq<string>, x: string, sep: string)
    requires |parts| >= 1
    ensures Join(parts + [x], sep) == Join(parts, sep) + sep + x
    decreases |parts|
  {
    if |parts| == 1 {
      assert parts + [x] == [parts[0], x];
    } else {
      assert (parts + [x])[1..] == parts[1..] + [x];
      JoinSnoc(parts[1..], x, sep);
    }
  }

  /** `s.split(sep)` for a non-empty separator: the leftmost occurrences of
      `sep`, taken without overlap, cut `s` into at least one piece. */
  function Split(s: string, sep: string): (r: seq<string>)
    requires |sep| > 0
    ensures |r| >= 1
    decreases |s|
  {
    if |sep| <= |s| && s[..|sep|] == sep then [""] + Split(s[|sep|..], sep)
    else if |s| == 0 then [""]
    else
      var rest := Split(s[1..], sep);
      [[s[0]] + rest[0]] + rest[1..]
  }

  /** Concatenation is associative (stated once, in a small context, so that
      larger proofs need not rediscover it). */
  lemma ConcatAssoc<T>(a: seq<T>, b: seq<T>, c: seq<T>)
    ensures (a + b) + c == a + (b + c)
  {
  }

  /** Joining a list with a known first part. */
  lemma JoinCons(p: string, t: seq<string>, sep: string)
    ensures Join([p] + t, sep) == p + (if t == [] then "" else sep + Join(t, sep))
  {
    if t != [] {
      assert ([p] + t)[1..] == t;
    }
  }

  /** Splitting and re-joining with the same separator gives back the text. */
  lemma {:induction false} JoinSplit(s: string, sep: string)
    requires |sep| > 0
    ensures Join(Split(s, sep), sep) == s
    decreases |s|
  {
    if |sep| <= |s| && s[..|sep|] == sep {
      var rest := Split(s[|sep|..], sep);
      JoinSplit(s[|sep|..], sep);
      JoinCons("", rest, sep);
      assert s == sep + s[|sep|..];
    } else if |s| == 0 {
    } else {
      var rest := Split(s[1..], sep);
      var tail := rest[1..];
      var j := if tail == [] then "" else sep + Join(tail, sep);
      assert Split(s, sep) == [[s[0]] + rest[0]] + tail;
      JoinSplit(s[1..], sep);
      assert rest == [rest[0]] + tail;
      JoinCons(rest[0], tail, sep);
      JoinCons([s[0]] + rest[0], tail, sep);
      assert s[1..] == rest[0] + j;
      ConcatAssoc([s[0]], rest[0], j);
      assert s == [s[0]] + s[1..];
    }
  }

  /** With a one-character separator no piece contains that character. */
  lemma {:induction false} SplitPiecesAvoidSep(s: string, c: char)
    ensures forall p :: p in Split(s, [c]) ==> c !in p
    decreases |s|
  {
    var sep := [c];
    if 1 <= |s| && s[..1] == sep {
      SplitPiecesAvoidSep(s[1..], c);
    } else if |s| == 0 {
    } else {
      SplitPiecesAvoidSep(s[1..], c);
      var rest := Split(s[1..], sep);
      assert s[0] != c by { assert s[..1] == [s[0]]; }
      assert rest[0] in rest;
      forall p | p in [[s[0]] + rest[0]] + rest[1..] ensures c !in p {
        if p != [s[0]] + rest[0] {
          assert p in rest[1..];
          assert p in rest;
        }
      }
    }
  }

  predicate IsDigit(c: char) {
    '0' <= c <= '9'
  }

  function DigitChar(d: nat): (c: char)
    requires d < 10
    ensures IsDigit(c) && c as int - '0' as int == d
  {
    ('0' as int + d) as char
  }

  /** `str(n)` for a natural number: its decimal digits, most significant first. */
  function NatToString(n: nat): (r: string)
    ensures |r| >= 1
    ensures forall i :: 0 <= i < |r| ==> '0' <= r[i] <= '9'
    decreases n
  {
    if n < 10 then [DigitChar(n)] else NatToString(n / 10) + [DigitChar(n % 10)]
  }

  /** `str(i)` for any integer. */
  function IntToString(i: int): string {
    if i < 0 then "-" + NatToString(-i) else NatToString(i)
  }

  /** The number a string of decimal digits denotes (leading zeros allowed). */
  function DigitsValue(s: string): nat
    requires forall i :: 0 <= i < |s| ==> IsDigit(s[i])
    decreases |s|
  {
    if s == [] then 0
    else
      assert IsDigit(s[|s| - 1]);
      DigitsValue(s[..|s| - 1]) * 10 + (s[|s| - 1] as int - '0' as int)
  }

  /** Reading back the decimal rendering of `n` gives `n`. */
  lemma {:induction false} DigitsOfNat(n: nat)
    ensures DigitsValue(NatToString(n)) == n
    decreases n
  {
    if n >= 10 {
      var d := NatToString(n);
      assert d[..|d| - 1] == NatToString(n / 10);
      DigitsOfNat(n / 10);
    }
  }

  /** A run of `drop` characters followed by a character that is not one is
      counted exactly. */
  lemma {:induction false} LeadCountConcat(a: string, b: string, drop: char -> bool)
    requires forall i :: 0 <= i < |a| ==> drop(a[i])
    requires b == [] || !drop(b[0])
    ensures LeadCount(a + b, drop) == |a|
    decreases |a|
  {
    if a != [] {
      assert (a + b)[1..] == a[1..] + b;
      LeadCountConcat(a[1..], b, drop);
    } else {
      assert a + b == b;
    }
  }

  // ---------------------------------------------------------------------
  // Collapsing runs of a character class, as `re.sub(P + "+", " ", s)` does.

  /** `re.sub(P + "+", " ", s)` for a character class P, or, when P is the
      space itself, `re.sub(" {2,}", " ", s)`: every maximal run of
      P-characters becomes one space. `prev` says whether the character
      before `s` was in P. */
  function Squash(s: string, p: char -> bool, prev: bool): string
    decreases |s|
  {
    if s == [] then []
    else if p(s[0]) then (if prev then "" else " ") + Squash(s[1..], p, true)
    else [s[0]] + Squash(s[1..], p, false)
  }

  predicate DoubleAt(t: string, i: nat)
    requires i + 1 < |t|
  {
    t[i] == ' ' && t[i + 1] == ' '
  }

  /** No two spaces in a row. */
  predicate NoDouble(t: string) {
    forall i :: 0 <= i < |t| - 1 ==> !DoubleAt(t, i)
  }

  /** A property that the space and every input character have, every
      output character has. */
  lemma {:induction false} SquashKeeps(s: string, p: char -> bool, prev: bool, bad: char -> bool)
    requires !bad(' ')
    requires forall i :: 0 <= i < |s| ==> !bad(s[i])
    ensures forall i :: 0 <= i < |Squash(s, p, prev)| ==> !bad(Squash(s, p, prev)[i])
    decreases |s|
  {
    if s != [] {
      SquashKeeps(s[1..], p, p(s[0]), bad);
    }
  }

  /** No character of the class survives except the spaces put in its place. */
  lemma {:induction false} SquashRemoves(s: string, p: char -> bool, prev: bool)
    ensures forall i :: 0 <= i < |Squash(s, p, prev)| ==>
      Squash(s, p, prev)[i] == ' ' || !p(Squash(s, p, prev)[i])
    decreases |s|
  {
    if s != [] {
      SquashRemoves(s[1..], p, p(s[0]));
    }
  }

  /** Collapsing the runs of a class that contains the space leaves no two
      spaces in a row, and none at the front after a run. */
  lemma {:induction false} SquashNoDouble(s: string, p: char -> bool, prev: bool)
    requires p(' ')
    ensures var r := Squash(s, p, prev);
      NoDouble(r) && (prev ==> r == [] || r[0] != ' ')
    decreases |s|
  {
    if s != [] {
      var rest := Squash(s[1..], p, p(s[0]));
      SquashNoDouble(s[1..], p, p(s[0]));
      var r := Squash(s, p, prev);
      var head := r[..|r| - |rest|];
      assert r == head + rest;
      forall i | 0 <= i < |r| - 1 ensures !DoubleAt(r, i) {
        if i >= |head| {
          assert !DoubleAt(rest, i - |head|);
        }
      }
    }
  }

  /** Every slice of a text without double spaces has none. */
  lemma NoDoubleSlice(s: string, a: nat, b: nat)
    requires NoDouble(s) && a <= b <= |s|
    ensures NoDouble(s[a..b])
  {
    forall i | 0 <= i < b - a - 1 ensures !DoubleAt(s[a..b], i) {
      assert !DoubleAt(s, a + i);
    }
  }
}
