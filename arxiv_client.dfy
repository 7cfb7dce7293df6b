/**
 * The arXiv search client, without the network and the XML parser: the
 * query is validated and turned into request parameters, each Atom entry of
 * the feed (given as the texts of its id and title elements and its link
 * records) becomes a paper with an id, a whitespace-normalised title and a
 * PDF link, and entries without a title are skipped.
 */
module ArxivClient {
  import opened Wrappers
  import opened Text

  datatype ArxivPaper = ArxivPaper(arxivId: string, title: string, pdfUrl: string)

  /** An Atom `link` element's attributes; an absent attribute is "". */
  datatype Link = Link(title: string, rel: string, href: string)

  /** An Atom `entry`: the text of its `id` and `title` elements ("" when
      the element or its text is missing) and its links, in document order. */
  datatype Entry = Entry(idText: string, titleText: string, links: seq<Link>)

  /** The query parameters of the API request. */
  datatype Query = Query(searchQuery: string, start: int, maxResults: int, sortBy: string, sortOrder: string)

  /** How one entry is read: skipped, rejected with a message, or a paper. */
  type EntryStep = Entry -> Option<Result<ArxivPaper>>

  /** What the request and the XML parse produced. */
  datatype Fetch = Unreachable(reason: string) | InvalidXml | Feed(entries: seq<Entry>)

  // ---------------------------------------------------------------------
  // Identifiers and links.

  /** `_extract_id`: the last '/'-separated segment once trailing slashes
      are removed; "" for an empty id. */
  function ExtractId(rawId: string): (r: string)
    ensures '/' !in r
  {
    if rawId == "" then ""
    else
      var parts := Split(RStripChar(rawId, '/'), "/");
      SplitPiecesAvoidSep(RStripChar(rawId, '/'), '/');
      assert parts[|parts| - 1] in parts;
      parts[|parts| - 1]
  }

  /** The id is the part of the slash-stripped text after its last '/', or
      all of it when it has none. */
  lemma ExtractIdIsLastSegment(rawId: string)
    requires rawId != ""
    ensures var t := RStripChar(rawId, '/');
      var r := ExtractId(rawId);
      EndsWith(t, r) && (|r| == |t| || t[|t| - |r| - 1] == '/')
  {
    var t := RStripChar(rawId, '/');
    var parts := Split(t, "/");
    var n := |parts|;
    JoinSplit(t, "/");
    if n >= 2 {
      assert parts == parts[..n - 1] + [parts[n - 1]];
      JoinSnoc(parts[..n - 1], parts[n - 1], "/");
      var j := Join(parts[..n - 1], "/");
      assert t == j + "/" + parts[n - 1];
      assert t[|t| - |parts[n - 1]|..] == parts[n - 1];
    }
  }

  /** The URL used when no link qualifies. */
  function FallbackUrl(arxivId: string): string {
    "https://arxiv.org/pdf/" + arxivId + ".pdf"
  }

  /** A link `_extract_pdf_url` accepts: a non-blank href, and either the
      title "pdf" or the relation "related" with an href ending in ".pdf"
      (title and relation compared trimmed and lower-cased). */
  predicate IsPdfLink(l: Link) {
    var href := Strip(l.href);
    href != ""
    && (Lower(Strip(l.title)) == "pdf"
        || (Lower(Strip(l.rel)) == "related" && EndsWith(href, ".pdf")))
  }

  /** `_extract_pdf_url`: scans the links in order and returns the first
      accepted href, trimmed; otherwise the fallback URL for a known id. */
  function ExtractPdfUrl(links: seq<Link>, arxivId: string): (r: Result<string>)
    ensures r.Ok? ==> r.value != ""
    decreases |links|
  {
    if links == [] then
      if arxivId != "" then Ok(FallbackUrl(arxivId))
      else Err("ValueError: No valid pdf url found in arXiv entry")
    else
      var link := links[0];
      var title := Lower(Strip(link.title));
      var rel := Lower(Strip(link.rel));
      var href := Strip(link.href);
      if href == "" then ExtractPdfUrl(links[1..], arxivId)
      else if title == "pdf" then Ok(href)
      else if rel == "related" && EndsWith(href, ".pdf") then Ok(href)
      else ExtractPdfUrl(links[1..], arxivId)
  }

  /** The scan fails only when no link is accepted and the id is empty. */
  lemma {:induction false} ExtractPdfUrlFails(links: seq<Link>, arxivId: string)
    ensures ExtractPdfUrl(links, arxivId).Err?
      <==> arxivId == "" && forall j :: 0 <= j < |links| ==> !IsPdfLink(links[j])
    decreases |links|
  {
    if links != [] {
      ExtractPdfUrlFails(links[1..], arxivId);
      assert forall j :: 1 <= j < |links| ==> links[j] == links[1..][j - 1];
    }
  }

  /** The first accepted link wins. */
  lemma {:induction false} ExtractPdfUrlFirst(links: seq<Link>, arxivId: string, k: nat)
    requires k < |links| && IsPdfLink(links[k])
    requires forall j :: 0 <= j < k ==> !IsPdfLink(links[j])
    ensures ExtractPdfUrl(links, arxivId) == Ok(Strip(links[k].href))
    decreases k
  {
    if k > 0 {
      assert !IsPdfLink(links[0]);
      assert links[1..][k - 1] == links[k];
      ExtractPdfUrlFirst(links[1..], arxivId, k - 1);
    }
  }

  /** With no accepted link the URL is built from the id, if there is one. */
  lemma {:induction false} ExtractPdfUrlFallback(links: seq<Link>, arxivId: string)
    requires forall j :: 0 <= j < |links| ==> !IsPdfLink(links[j])
    ensures ExtractPdfUrl(links, arxivId)
      == if arxivId != "" then Ok(FallbackUrl(arxivId))
         else Err("ValueError: No valid pdf url found in arXiv entry")
    decreases |links|
  {
    if links != [] {
      assert !IsPdfLink(links[0]);
      ExtractPdfUrlFallback(links[1..], arxivId);
    }
  }

  // ---------------------------------------------------------------------
  // Whitespace normalisation of titles: `" ".join(s.split())`.

  predicate IsWordChar(c: char) {
    !IsSpace(c)
  }

  /** A non-empty run of non-whitespace characters. */
  predicate IsWord(w: string) {
    w != [] && forall j :: 0 <= j < |w| ==> IsWordChar(w[j])
  }

  /** `s.split()`: the maximal runs of non-whitespace characters, in order. */
  function Words(s: string): seq<string>
    decreases |s|
  {
    var k := LeadCount(s, IsSpace);
    if k == |s| then []
    else
      LeadCountStop(s, IsSpace);
      var rest := s[k..];
      var w := LeadCount(rest, IsWordChar);
      assert w >= 1;
      [rest[..w]] + Words(rest[w..])
  }

  /** `" ".join(s.split())` */
  function Collapse(s: string): string {
    Join(Words(s), " ")
  }

  /** No whitespace at either end, and inside only single plain spaces. */
  predicate Collapsed(t: string) {
    && (t == [] || (!IsSpace(t[0]) && !IsSpace(t[|t| - 1])))
    && (forall i :: 0 <= i < |t| && IsSpace(t[i]) ==> t[i] == ' ')
    && NoDouble(t)
  }

  lemma {:induction false} WordsAreWords(s: string)
    ensures forall i :: 0 <= i < |Words(s)| ==> IsWord(Words(s)[i])
    decreases |s|
  {
    var k := LeadCount(s, IsSpace);
    if k < |s| {
      LeadCountStop(s, IsSpace);
      var rest := s[k..];
      var w := LeadCount(rest, IsWordChar);
      LeadCountAll(rest, IsWordChar);
      assert IsWord(rest[..w]);
      WordsAreWords(rest[w..]);
    }
  }

  /** Words joined by single spaces form a collapsed text, empty only when
      there are no words. */
  lemma {:induction false} JoinWordsCollapsed(ws: seq<string>)
    requires forall i :: 0 <= i < |ws| ==> IsWord(ws[i])
    ensures Collapsed(Join(ws, " "))
    ensures Join(ws, " ") == [] <==> ws == []
    decreases |ws|
  {
    if |ws| == 1 {
      var w := ws[0];
      forall i | 0 <= i < |w| - 1 ensures !DoubleAt(w, i) {
        assert IsWordChar(w[i]);
      }
    } else if |ws| >= 2 {
      var w := ws[0];
      var j := Join(ws[1..], " ");
      JoinWordsCollapsed(ws[1..]);
      var t := Join(ws, " ");
      assert t == w + " " + j;
      assert |t| == |w| + 1 + |j|;
      assert t[0] == w[0];
      assert t[|t| - 1] == j[|j| - 1];
      forall i | 0 <= i < |t| && IsSpace(t[i]) ensures t[i] == ' ' {
        if i > |w| {
          assert t[i] == j[i - |w| - 1];
        }
      }
      forall i | 0 <= i < |t| - 1 ensures !DoubleAt(t, i) {
        if i > |w| {
          assert !DoubleAt(j, i - |w| - 1);
        } else if i == |w| {
          assert t[i + 1] == j[0];
        }
      }
    }
  }

  /** A normalised title has no surrounding whitespace and only single
      spaces inside, and it is empty exactly when the text has no word. */
  lemma CollapseShape(s: string)
    ensures Collapsed(Collapse(s))
    ensures Collapse(s) == [] <==> Words(s) == []
  {
    WordsAreWords(s);
    JoinWordsCollapsed(Words(s));
  }

  // ---------------------------------------------------------------------
  // The request and the entry loop of `search_arxiv`.

  /** The request parameters: a blank query is rejected; otherwise the
      stripped query is searched in all fields, at least one result. */
  function SearchParams(query: string, maxResults: int, sortBy: string, sortOrder: string): (r: Result<Query>)
    ensures r.Err? <==> Strip(query) == ""
    ensures r.Ok? ==> r.value.maxResults >= 1 && r.value.start == 0
    ensures r.Ok? ==> r.value.searchQuery == "all:" + Strip(query)
  {
    var normalized := Strip(query);
    if normalized == "" then Err("ValueError: query cannot be empty")
    else Ok(Query("all:" + normalized, 0, if maxResults < 1 then 1 else maxResults, sortBy, sortOrder))
  }

  /** The searched text after "all:" is non-empty and already stripped. */
  lemma SearchTermStripped(query: string, maxResults: int, sortBy: string, sortOrder: string)
    requires SearchParams(query, maxResults, sortBy, sortOrder).Ok?
    ensures var q := SearchParams(query, maxResults, sortBy, sortOrder).value.searchQuery;
      |q| > 4 && q[..4] == "all:" && Strip(q[4..]) == q[4..]
  {
    var q := SearchParams(query, maxResults, sortBy, sortOrder).value.searchQuery;
    assert q[4..] == Strip(query);
    TrimBothTwice(query, IsSpace);
  }

  /** The title an entry yields. */
  function EntryTitle(e: Entry): string {
    Collapse(Strip(e.titleText))
  }

  /** One entry: skipped (`None`) when its title is empty, an error when no
      PDF link can be found, otherwise a paper. */
  function ToPaper(e: Entry): Option<Result<ArxivPaper>> {
    var rawId := Strip(e.idText);
    var title := EntryTitle(e);
    var arxivId := ExtractId(rawId);
    if title == "" then None
    else
      match ExtractPdfUrl(e.links, arxivId)
      case Err(_) =>
        Some(Err("ArxivClientError: Invalid entry for arXiv id " + (if arxivId != "" then arxivId else rawId)))
      case Ok(url) => Some(Ok(ArxivPaper(arxivId, title, url)))
  }

  /** An entry that makes the whole search fail. */
  predicate Rejects(step: EntryStep, e: Entry) {
    step(e).Some? && step(e).value.Err?
  }

  /** The papers of the entries read so far, or the first entry's error;
      `step` decides each entry (the search uses `ToPaper`). */
  function Harvest(step: EntryStep, entries: seq<Entry>): Result<seq<ArxivPaper>>
    decreases |entries|
  {
    if entries == [] then Ok([])
    else
      var n := |entries| - 1;
      match Harvest(step, entries[..n])
      case Err(e) => Err(e)
      case Ok(papers) =>
        match step(entries[n])
        case None => Ok(papers)
        case Some(Err(e)) => Err(e)
        case Some(Ok(p)) => Ok(papers + [p])
  }

  /** Reading one more entry. */
  lemma HarvestNext(step: EntryStep, entries: seq<Entry>, i: nat)
    requires i < |entries|
    ensures var before := Harvest(step, entries[..i]);
      Harvest(step, entries[..i + 1])
      == if before.Err? then before
         else match step(entries[i])
           case None => before
           case Some(Err(e)) => Err(e)
           case Some(Ok(p)) => Ok(before.value + [p])
  {
    assert entries[..i + 1][..i] == entries[..i];
  }

  /** An error stops the loop: later entries do not change it. */
  lemma {:induction false} HarvestErrorKept(step: EntryStep, entries: seq<Entry>, k: nat)
    requires k <= |entries| && Harvest(step, entries[..k]).Err?
    ensures Harvest(step, entries) == Harvest(step, entries[..k])
    decreases |entries|
  {
    if k < |entries| {
      var n := |entries| - 1;
      assert entries[..n][..k] == entries[..k];
      HarvestErrorKept(step, entries[..n], k);
    } else {
      assert entries[..k] == entries;
    }
  }

  /** The entries with a non-empty title. */
  function CountTitled(entries: seq<Entry>): nat
    decreases |entries|
  {
    if entries == [] then 0
    else CountTitled(entries[..|entries| - 1]) + (if EntryTitle(entries[|entries| - 1]) == "" then 0 else 1)
  }

  /** What every kept paper satisfies: a non-empty collapsed title, a
      non-empty PDF link and an id without '/'. */
  predicate GoodPaper(p: ArxivPaper) {
    p.title != "" && Collapsed(p.title) && p.pdfUrl != "" && '/' !in p.arxivId
  }

  /** An entry is skipped exactly when its title is empty; a paper it
      yields is good. */
  lemma ToPaperSpec(e: Entry)
    ensures ToPaper(e).None? <==> EntryTitle(e) == ""
    ensures ToPaper(e).Some? && ToPaper(e).value.Ok? ==> GoodPaper(ToPaper(e).value.value)
  {
    CollapseShape(Strip(e.titleText));
  }

  /** The search succeeds exactly when no entry is rejected. */
  lemma {:induction false} HarvestOkIff(step: EntryStep, entries: seq<Entry>)
    ensures Harvest(step, entries).Ok? <==> forall i :: 0 <= i < |entries| ==> !Rejects(step, entries[i])
    decreases |entries|
  {
    if entries != [] {
      var n := |entries| - 1;
      var init := entries[..n];
      HarvestOkIff(step, init);
      HarvestOkStep(step, entries);
      if Harvest(step, entries).Ok? {
        forall i | 0 <= i < |entries| ensures !Rejects(step, entries[i]) {
          if i < n {
            assert init[i] == entries[i];
          }
        }
      } else if Harvest(step, init).Ok? {
        assert Rejects(step, entries[n]);
      } else {
        var i :| 0 <= i < n && Rejects(step, init[i]);
        assert init[i] == entries[i];
      }
    }
  }

  lemma HarvestOkStep(step: EntryStep, entries: seq<Entry>)
    requires entries != []
    ensures var n := |entries| - 1;
      Harvest(step, entries).Ok? <==> Harvest(step, entries[..n]).Ok? && !Rejects(step, entries[n])
  {
  }

  /** A successful search keeps one good paper per titled entry. */
  lemma {:induction false} HarvestKept(entries: seq<Entry>)
    ensures Harvest(ToPaper, entries).Ok? ==>
      var papers := Harvest(ToPaper, entries).value;
      |papers| == CountTitled(entries) && forall k :: 0 <= k < |papers| ==> GoodPaper(papers[k])
    decreases |entries|
  {
    if entries != [] {
      var n := |entries| - 1;
      HarvestKept(entries[..n]);
      ToPaperSpec(entries[n]);
    }
  }

  /** `search_arxiv` apart from the network and the parser: `fetch` answers
      the request. */
  function SearchResult(query: string, maxResults: int, sortBy: string, sortOrder: string,
                        fetch: Query -> Fetch): (r: Result<seq<ArxivPaper>>)
    ensures Strip(query) == "" ==> r == Err("ValueError: query cannot be empty")
  {
    match SearchParams(query, maxResults, sortBy, sortOrder)
    case Err(e) => Err(e)
    case Ok(q) =>
      match fetch(q)
      case Unreachable(reason) => Err("ArxivClientError: Failed to query arXiv API: " + reason)
      case InvalidXml => Err("ArxivClientError: Invalid XML response from arXiv API")
      case Feed(entries) => Harvest(ToPaper, entries)
  }

  /** The entry loop: appends one paper per titled entry and stops at the
      first entry without a usable PDF link. */
  method HarvestEntries(entries: seq<Entry>) returns (r: Result<seq<ArxivPaper>>)
    ensures r == Harvest(ToPaper, entries)
  {
    var papers: seq<ArxivPaper> := [];
    var i := 0;
    while i < |entries|
      invariant 0 <= i <= |entries|
      invariant Harvest(ToPaper, entries[..i]) == Ok(papers)
    {
      HarvestNext(ToPaper, entries, i);
      match ToPaper(entries[i]) {
        case None =>
        case Some(Err(e)) =>
          HarvestErrorKept(ToPaper, entries, i + 1);
          return Err(e);
        case Some(Ok(p)) =>
          papers := papers + [p];
      }
      i := i + 1;
    }
    assert entries[..i] == entries;
    r := Ok(papers);
  }

  /** `search_arxiv` */
  method SearchArxiv(query: string, maxResults: int, sortBy: string, sortOrder: string,
                     fetch: Query -> Fetch) returns (r: Result<seq<ArxivPaper>>)
    ensures r == SearchResult(query, maxResults, sortBy, sortOrder, fetch)
  {
    var params := SearchParams(query, maxResults, sortBy, sortOrder);
    if params.Err? {
      return Err(params.error);
    }
    var response := fetch(params.value);
    match response
    case Unreachable(reason) =>
      r := Err("ArxivClientError: Failed to query arXiv API: " + reason);
    case InvalidXml =>
      r := Err("ArxivClientError: Invalid XML response from arXiv API");
    case Feed(entries) =>
      r := HarvestEntries(entries);
  }
}
