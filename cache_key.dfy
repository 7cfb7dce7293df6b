/**
 * The summary-cache key: SHA-256 over the JSON text of six fields, written
 * with sorted keys, the default `", "` and `": "` separators and non-ASCII
 * characters left as they are. The hash is a parameter; what is proved is
 * that the JSON text determines the six fields, by a reader that parses it
 * back.
 */
module CacheKey {
  import opened Wrappers
  import opened Text

  /** The inputs a cached summary depends on. */
  datatype Fingerprint = Fingerprint(
    pdfHash: string, model: string, systemPrompt: string,
    maxChars: int, chunkChars: int, profile: string)

  /** Hexadecimal digit for `0 <= k < 16`, lower case as `json` writes it. */
  function HexDigit(k: nat): char
    requires k < 16
  {
    if k < 10 then ('0' as int + k) as char else ('a' as int + k - 10) as char
  }

  /** The value of a hexadecimal digit of either case, or -1. */
  function HexValue(c: char): int {
    if '0' <= c <= '9' then c as int - '0' as int
    else if 'a' <= c <= 'f' then c as int - 'a' as int + 10
    else if 'A' <= c <= 'F' then c as int - 'A' as int + 10
    else -1
  }

  /** How `json.dumps(..., ensure_ascii=False)` writes one character of a
      string: quote, backslash and the C0 controls are escaped (the five
      common ones by letter, the rest as `\u00XX`); everything else,
      non-ASCII included, is written as is. */
  function EscapeChar(c: char): string {
    if c == '"' then "\\\""
    else if c == '\\' then "\\\\"
    else if c == '\n' then "\\n"
    else if c == '\r' then "\\r"
    else if c == '\t' then "\\t"
    else if c == '\U{0008}' then "\\b"
    else if c == '\U{000C}' then "\\f"
    else if c as int < 0x20 then "\\u00" + [HexDigit(c as int / 16), HexDigit(c as int % 16)]
    else [c]
  }

  function Escape(s: string): string
    decreases |s|
  {
    if s == [] then "" else EscapeChar(s[0]) + Escape(s[1..])
  }

  /** A JSON string literal. */
  function StrJson(s: string): string {
    "\"" + (Escape(s) + "\"")
  }

  /** `json.dumps(fingerprint, ensure_ascii=False, sort_keys=True)`: the keys
      in sorted order chunk_chars, max_chars, model, pdf_hash, profile,
      system_prompt. */
  function Serialise(f: Fingerprint): string {
    "{\"chunk_chars\": " + (IntToString(f.chunkChars) +
    (", \"max_chars\": " + (IntToString(f.maxChars) +
    (", \"model\": " + (StrJson(f.model) +
    (", \"pdf_hash\": " + (StrJson(f.pdfHash) +
    (", \"profile\": " + (StrJson(f.profile) +
    (", \"system_prompt\": " + (StrJson(f.systemPrompt) + "}")))))))))))
  }

  /** `build_summary_cache_key`: the hex digest of the serialised fields,
      with SHA-256 over their UTF-8 encoding given as `digest`. */
  function CacheKeyOf(digest: string -> string, f: Fingerprint): string {
    digest(Serialise(f))
  }

  // ---------------------------------------------------------------------
  // A reader for the serialised form.

  /** The rest of `s` after the literal `lit`, if `s` starts with it. */
  function Expect(lit: string, s: string): Option<string> {
    if |lit| <= |s| && s[..|lit|] == lit then Some(s[|lit|..]) else None
  }

  /** A run of one or more decimal digits and its value. */
  function ReadDigits(s: string): Option<(nat, string)> {
    var k := LeadCount(s, IsDigit);
    LeadCountAll(s, IsDigit);
    if k == 0 then None else Some((DigitsValue(s[..k]), s[k..]))
  }

  /** An optional minus sign and a run of decimal digits. */
  function ReadInt(s: string): Option<(int, string)> {
    if s != [] && s[0] == '-' then
      var d := ReadDigits(s[1..]);
      if d.None? then None else Some((-(d.value.0 as int), d.value.1))
    else
      var d := ReadDigits(s);
      if d.None? then None else Some((d.value.0 as int, d.value.1))
  }

  /** The character an escape denotes, read after its backslash. */
  function ReadEscape(s: string): (r: Option<(char, string)>)
    ensures r.Some? ==> |r.value.1| < |s|
  {
    if s == [] then None
    else if s[0] == '"' || s[0] == '\\' || s[0] == '/' then Some((s[0], s[1..]))
    else if s[0] == 'n' then Some(('\n', s[1..]))
    else if s[0] == 'r' then Some(('\r', s[1..]))
    else if s[0] == 't' then Some(('\t', s[1..]))
    else if s[0] == 'b' then Some(('\U{0008}', s[1..]))
    else if s[0] == 'f' then Some(('\U{000C}', s[1..]))
    else if s[0] == 'u' && |s| >= 5
      && HexValue(s[1]) >= 0 && HexValue(s[2]) >= 0 && HexValue(s[3]) >= 0 && HexValue(s[4]) >= 0
    then
      var v := HexValue(s[1]) * 4096 + HexValue(s[2]) * 256 + HexValue(s[3]) * 16 + HexValue(s[4]);
      if 0xD800 <= v < 0xE000 then None else Some((v as char, s[5..]))
    else None
  }

  function Prepend(c: char, o: Option<(string, string)>): Option<(string, string)> {
    if o.None? then None else Some(([c] + o.value.0, o.value.1))
  }

  /** The body of a string literal up to its closing quote, unescaped, and
      what follows the quote. */
  function ReadBody(s: string): Option<(string, string)>
    decreases |s|
  {
    if s == [] then None
    else if s[0] == '"' then Some(("", s[1..]))
    else if s[0] == '\\' then
      var e := ReadEscape(s[1..]);
      if e.None? then None else Prepend(e.value.0, ReadBody(e.value.1))
    else Prepend(s[0], ReadBody(s[1..]))
  }

  function ReadStr(s: string): Option<(string, string)> {
    if s != [] && s[0] == '"' then ReadBody(s[1..]) else None
  }

  function IntField(key: string, s: string): Option<(int, string)> {
    var t := Expect(key, s);
    if t.None? then None else ReadInt(t.value)
  }

  function StrField(key: string, s: string): Option<(string, string)> {
    var t := Expect(key, s);
    if t.None? then None else ReadStr(t.value)
  }

  /** Reads the six fields back from the serialised text. */
  function Parse(s: string): Option<Fingerprint> {
    var a := IntField("{\"chunk_chars\": ", s);
    if a.None? then None else
    var b := IntField(", \"max_chars\": ", a.value.1);
    if b.None? then None else
    var c := StrField(", \"model\": ", b.value.1);
    if c.None? then None else
    var d := StrField(", \"pdf_hash\": ", c.value.1);
    if d.None? then None else
    var e := StrField(", \"profile\": ", d.value.1);
    if e.None? then None else
    var g := StrField(", \"system_prompt\": ", e.value.1);
    if g.None? || g.value.1 != "}" then None
    else Some(Fingerprint(d.value.0, c.value.0, g.value.0, b.value.0, a.value.0, e.value.0))
  }

  // ---------------------------------------------------------------------
  // Round trip.

  lemma ExpectLit(lit: string, rest: string)
    ensures Expect(lit, lit + rest) == Some(rest)
  {
    assert (lit + rest)[..|lit|] == lit;
    assert (lit + rest)[|lit|..] == rest;
  }

  /** A natural number reads back from its digits when no digit follows. */
  lemma ReadDigitsOf(n: nat, rest: string)
    requires rest == [] || !IsDigit(rest[0])
    ensures ReadDigits(NatToString(n) + rest) == Some((n, rest))
  {
    var digits := NatToString(n);
    var body := digits + rest;
    LeadCountConcat(digits, rest, IsDigit);
    assert body[..|digits|] == digits;
    assert body[|digits|..] == rest;
    DigitsOfNat(n);
  }

  /** An integer reads back from its decimal text when no digit follows. */
  lemma ReadIntOfString(i: int, rest: string)
    requires rest == [] || !IsDigit(rest[0])
    ensures ReadInt(IntToString(i) + rest) == Some((i, rest))
  {
    if i < 0 {
      var n: nat := -i;
      assert IntToString(i) == "-" + NatToString(n);
      ConcatAssoc("-", NatToString(n), rest);
      ReadNegative(n, rest);
    } else {
      assert IntToString(i) == NatToString(i);
      ReadNonNegative(i, rest);
    }
  }

  lemma ReadNegative(n: nat, rest: string)
    requires rest == [] || !IsDigit(rest[0])
    ensures ReadInt("-" + (NatToString(n) + rest)) == Some((-(n as int), rest))
  {
    var s := "-" + (NatToString(n) + rest);
    assert s[1..] == NatToString(n) + rest;
    ReadDigitsOf(n, rest);
  }

  lemma ReadNonNegative(n: nat, rest: string)
    requires rest == [] || !IsDigit(rest[0])
    ensures ReadInt(NatToString(n) + rest) == Some((n, rest))
  {
    assert IsDigit(NatToString(n)[0]);
    ReadDigitsOf(n, rest);
  }

  /** Reading an escaped character back. */
  lemma ReadEscapeChar(c: char, rest: string)
    ensures ReadBody(EscapeChar(c) + rest) == Prepend(c, ReadBody(rest))
  {
    if c == '"' || c == '\\' {
      ReadShortEscape(c, c, rest);
    } else if c == '\n' {
      ReadShortEscape('n', c, rest);
    } else if c == '\r' {
      ReadShortEscape('r', c, rest);
    } else if c == '\t' {
      ReadShortEscape('t', c, rest);
    } else if c == '\U{0008}' {
      ReadShortEscape('b', c, rest);
    } else if c == '\U{000C}' {
      ReadShortEscape('f', c, rest);
    } else if c as int < 0x20 {
      ReadUnicodeEscape(c, rest);
    } else {
      assert ([c] + rest)[1..] == rest;
    }
  }

  /** A backslash and one letter read back as the character they stand for. */
  lemma ReadShortEscape(x: char, c: char, rest: string)
    requires ReadEscape([x] + rest) == Some((c, rest))
    ensures ReadBody(['\\', x] + rest) == Prepend(c, ReadBody(rest))
  {
    assert (['\\', x] + rest)[1..] == [x] + rest;
  }

  /** A `\u00XX` escape reads back as the control character it encodes. */
  lemma ReadUnicodeEscape(c: char, rest: string)
    requires c as int < 0x20
    ensures ReadBody(("\\u00" + [HexDigit(c as int / 16), HexDigit(c as int % 16)]) + rest)
      == Prepend(c, ReadBody(rest))
  {
    var e := "\\u00" + [HexDigit(c as int / 16), HexDigit(c as int % 16)];
    var t := (e + rest)[1..];
    assert t == "u00" + [HexDigit(c as int / 16), HexDigit(c as int % 16)] + rest;
    assert t[5..] == rest;
    assert HexValue(t[3]) == c as int / 16;
    assert HexValue(t[4]) == c as int % 16;
  }

  /** The body of a string literal reads back to the original string. */
  lemma {:induction false} ReadEscaped(s: string, rest: string)
    ensures ReadBody(Escape(s) + ("\"" + rest)) == Some((s, rest))
    decreases |s|
  {
    if s == [] {
      assert Escape(s) + ("\"" + rest) == "\"" + rest;
      assert ("\"" + rest)[1..] == rest;
    } else {
      var tail := Escape(s[1..]) + ("\"" + rest);
      ConcatAssoc(EscapeChar(s[0]), Escape(s[1..]), "\"" + rest);
      ReadEscapeChar(s[0], tail);
      ReadEscaped(s[1..], rest);
      assert [s[0]] + s[1..] == s;
    }
  }

  lemma ReadStrOfJson(s: string, rest: string)
    ensures ReadStr(StrJson(s) + rest) == Some((s, rest))
  {
    ConcatAssoc(Escape(s), "\"", rest);
    ConcatAssoc("\"", Escape(s) + "\"", rest);
    assert (StrJson(s) + rest)[1..] == Escape(s) + ("\"" + rest);
    ReadEscaped(s, rest);
  }

  lemma IntFieldOf(key: string, i: int, rest: string)
    requires rest == [] || !IsDigit(rest[0])
    ensures IntField(key, key + (IntToString(i) + rest)) == Some((i, rest))
  {
    ExpectLit(key, IntToString(i) + rest);
    ReadIntOfString(i, rest);
  }

  lemma StrFieldOf(key: string, s: string, rest: string)
    ensures StrField(key, key + (StrJson(s) + rest)) == Some((s, rest))
  {
    ExpectLit(key, StrJson(s) + rest);
    ReadStrOfJson(s, rest);
  }

  /** The serialised text parses back to the fingerprint it was made from. */
  lemma ParseSerialise(f: Fingerprint)
    ensures Parse(Serialise(f)) == Some(f)
  {
    var r6 := ", \"system_prompt\": " + (StrJson(f.systemPrompt) + "}");
    var r5 := ", \"profile\": " + (StrJson(f.profile) + r6);
    var r4 := ", \"pdf_hash\": " + (StrJson(f.pdfHash) + r5);
    var r3 := ", \"model\": " + (StrJson(f.model) + r4);
    var r2 := ", \"max_chars\": " + (IntToString(f.maxChars) + r3);
    IntFieldOf("{\"chunk_chars\": ", f.chunkChars, r2);
    IntFieldOf(", \"max_chars\": ", f.maxChars, r3);
    StrFieldOf(", \"model\": ", f.model, r4);
    StrFieldOf(", \"pdf_hash\": ", f.pdfHash, r5);
    StrFieldOf(", \"profile\": ", f.profile, r6);
    StrFieldOf(", \"system_prompt\": ", f.systemPrompt, "}");
  }

  /** Distinct fingerprints have distinct serialisations, so the cache key
      separates them whenever the digest does not collide. */
  lemma SerialiseInjective(f: Fingerprint, g: Fingerprint)
    requires Serialise(f) == Serialise(g)
    ensures f == g
  {
    ParseSerialise(f);
    ParseSerialise(g);
  }

  /** Equal cache keys for different fingerprints can only come from a
      collision of the digest. */
  lemma SameKeyOnlyByCollision(digest: string -> string, f: Fingerprint, g: Fingerprint)
    requires f != g && CacheKeyOf(digest, f) == CacheKeyOf(digest, g)
    ensures Serialise(f) != Serialise(g) && digest(Serialise(f)) == digest(Serialise(g))
  {
    if Serialise(f) == Serialise(g) {
      SerialiseInjective(f, g);
    }
  }
}
