/**
 * The citation record of `backend/rag/citation.py`, its APA-style rendering
 * `format_citation`, and the pure parts of `get_citation` that turn a PDF's
 * metadata dictionary or a CrossRef work record into a `Citation`.
 */
module Citations {
  import opened Wrappers
  import opened Text

  /** The `Citation` dataclass; the optional fields default to `None`. */
  datatype Citation = Citation(
    title: string,
    authors: seq<string>,
    year: string,
    doi: Option<string>,
    journal: Option<string>,
    volume: Option<string>,
    issue: Option<string>,
    publisher: Option<string>,
    url: Option<string>)

  /** Python truthiness of an optional string: present and not empty. */
  predicate Given(field: Option<string>) {
    field.Some? && field.value != ""
  }

  /** `xs[:-1]`: everything but the last element (nothing for an empty list). */
  function AllButLast<T>(xs: seq<T>): (ys: seq<T>)
    ensures |ys| == if xs == [] then 0 else |xs| - 1
  {
    if xs == [] then [] else xs[..|xs| - 1]
  }

  // ----- format_citation -----

  /** The author part of an APA reference, built as `format_citation` builds it. */
  function AuthorList(authors: seq<string>): string {
    var joined := JoinWith(", ", AllButLast(authors));
    if |authors| > 1 then joined + ", & " + authors[|authors| - 1]
    else if |authors| == 1 then authors[0]
    else joined
  }

  /**
   * The APA author list defined author by author: nothing for no author, the
   * name alone for one, "A, & B" for two, and "A, " before the list of the rest
   * for more.
   */
  function ApaAuthors(authors: seq<string>): string
    decreases |authors|
  {
    if |authors| == 0 then ""
    else if |authors| == 1 then authors[0]
    else if |authors| == 2 then authors[0] + ", & " + authors[1]
    else authors[0] + ", " + ApaAuthors(authors[1..])
  }

  /** The join-based construction of the source yields the author-by-author list. */
  lemma {:induction false} AuthorListIsApa(authors: seq<string>)
    ensures AuthorList(authors) == ApaAuthors(authors)
    decreases |authors|
  {
    var n := |authors|;
    if n >= 3 {
      var rest := authors[1..];
      AuthorListIsApa(rest);
      var init := AllButLast(authors);
      assert init == [authors[0]] + AllButLast(rest);
      assert init[1..] == AllButLast(rest);
      var tail := JoinWith(", ", AllButLast(rest));
      assert JoinWith(", ", init) == authors[0] + ", " + tail;
      assert authors[n - 1] == rest[|rest| - 1];
      assert AuthorList(rest) == tail + ", & " + rest[|rest| - 1];
      assert ApaAuthors(authors) == authors[0] + ", " + ApaAuthors(rest);
      calc {
        AuthorList(authors);
        authors[0] + ", " + tail + ", & " + authors[n - 1];
        authors[0] + ", " + (tail + ", & " + rest[|rest| - 1]);
        authors[0] + ", " + ApaAuthors(rest);
      }
    } else if n == 2 {
      assert AllButLast(authors) == [authors[0]];
      assert AuthorList(authors) == authors[0] + ", & " + authors[1];
    } else if n == 1 {
      assert AuthorList(authors) == authors[0];
    } else {
      assert AuthorList(authors) == "";
    }
  }

  /** What every APA reference starts with: `"{authors} ({year}). {title}"`. */
  function Head(c: Citation): string {
    AuthorList(c.authors) + " (" + c.year + "). " + c.title
  }

  /**
   * `format_citation(citation, style)`: for "apa", the head, then the journal
   * clause (only with a journal; the volume only inside it, the issue only
   * after a volume), then the DOI link last; any other style gives "".
   */
  function FormatCitation(c: Citation, style: string): (text: string)
    ensures style != "apa" ==> text == ""
    ensures style == "apa" ==> Head(c) <= text
  {
    if style == "apa" then
      var withJournal :=
        if Given(c.journal) then
          Head(c) + ". " + c.journal.value +
          (if Given(c.volume) then
             ", " + c.volume.value + (if Given(c.issue) then "(" + c.issue.value + ")" else "")
           else "")
        else Head(c);
      if Given(c.doi) then withJournal + ". https://doi.org/" + c.doi.value else withJournal
    else ""
  }

  /**
   * The journal clause of an APA reference, case by case: nothing without a
   * journal, ". {journal}" without a volume, ". {journal}, {volume}" without an
   * issue, and ". {journal}, {volume}({issue})" with all three.
   */
  function JournalClause(c: Citation): (clause: string)
    ensures !Given(c.journal) <==> clause == ""
  {
    if !Given(c.journal) then ""
    else if !Given(c.volume) then ". " + c.journal.value
    else if !Given(c.issue) then ". " + c.journal.value + ", " + c.volume.value
    else ". " + c.journal.value + ", " + c.volume.value + "(" + c.issue.value + ")"
  }

  /** The DOI link: ". https://doi.org/{doi}" for a non-empty DOI, otherwise nothing. */
  function DoiLink(c: Citation): (link: string)
    ensures !Given(c.doi) <==> link == ""
  {
    if Given(c.doi) then ". https://doi.org/" + c.doi.value else ""
  }

  /** An APA reference is exactly the head, the journal clause, then the DOI link. */
  lemma ApaLayout(c: Citation)
    ensures FormatCitation(c, "apa") == Head(c) + JournalClause(c) + DoiLink(c)
  {
    var h := Head(c);
    if Given(c.journal) {
      var j := c.journal.value;
      var rest :=
        if Given(c.volume) then
          ", " + c.volume.value + (if Given(c.issue) then "(" + c.issue.value + ")" else "")
        else "";
      JournalClauseIs(c);
      Associative(h, ". ", j);
      Associative(h, ". " + j, rest);
      assert h + ". " + j + rest == h + JournalClause(c);
    }
    if Given(c.doi) {
      Associative(h + JournalClause(c), ". https://doi.org/", c.doi.value);
    }
  }

  /** The journal clause written the way `format_citation` builds it, by nested appends. */
  lemma JournalClauseIs(c: Citation)
    requires Given(c.journal)
    ensures JournalClause(c) ==
      ". " + c.journal.value +
      (if Given(c.volume) then
         ", " + c.volume.value + (if Given(c.issue) then "(" + c.issue.value + ")" else "")
       else "")
  {
    var j := c.journal.value;
    if Given(c.volume) {
      var v := c.volume.value;
      if Given(c.issue) {
        Associative(". " + j + ", " + v, "(" + c.issue.value, ")");
      }
    }
  }

  /** With no author the reference starts directly with the parenthesised year. */
  lemma FormatWithoutAuthors(c: Citation)
    requires c.authors == []
    ensures " (" + c.year + "). " + c.title <= FormatCitation(c, "apa")
  {
  }

  /** A non-empty DOI is appended last, whatever the journal clause was; an empty one adds nothing. */
  lemma DoiComesLast(c: Citation)
    ensures FormatCitation(c, "apa") ==
      FormatCitation(c.(doi := None), "apa") + (if Given(c.doi) then ". https://doi.org/" + c.doi.value else "")
  {
  }

  /** Without a journal, volume and issue are not printed. */
  lemma VolumeNeedsJournal(c: Citation)
    requires !Given(c.journal)
    ensures FormatCitation(c, "apa") == FormatCitation(c.(volume := None, issue := None), "apa")
  {
  }

  /** Without a volume, the issue is not printed, even with a journal. */
  lemma IssueNeedsVolume(c: Citation)
    requires !Given(c.volume)
    ensures FormatCitation(c, "apa") == FormatCitation(c.(issue := None), "apa")
  {
  }

  /** Publisher and URL never appear in an APA reference. */
  lemma PublisherAndUrlUnused(c: Citation)
    ensures FormatCitation(c, "apa") == FormatCitation(c.(publisher := None, url := None), "apa")
  {
  }

  /**
   * The worked example: two authors, journal, volume, issue and DOI give
   * "Smith, J, & Doe, A (2020). Deep Work. J Sci, 5(2). https://doi.org/10.1/x"
   * (stated below in three literal pieces).
   */
  lemma FormatExample()
    ensures FormatCitation(
      Citation("Deep Work", ["Smith, J", "Doe, A"], "2020", Some("10.1/x"), Some("J Sci"),
               Some("5"), Some("2"), None, None), "apa")
      == "Smith, J, & Doe, A (2020). Deep Work" + ". J Sci, 5(2)" + ". https://doi.org/10.1/x"
  {
    var c := Citation("Deep Work", ["Smith, J", "Doe, A"], "2020", Some("10.1/x"), Some("J Sci"),
                      Some("5"), Some("2"), None, None);
    assert AllButLast(c.authors) == ["Smith, J"];
    ExampleHead();
    var head := "Smith, J, & Doe, A (2020). Deep Work";
    assert Head(c) == head;
    var clause := ". " + "J Sci" + (", " + "5" + ("(" + "2" + ")"));
    assert clause == ". J Sci, 5(2)";
    Associative(head, ". " + "J Sci", ", " + "5" + ("(" + "2" + ")"));
    Associative(head, ". ", "J Sci");
    assert head + ". " + "J Sci" + (", " + "5" + ("(" + "2" + ")")) == head + clause;
  }

  /** Proof step for `FormatExample`: string concatenation regroups. */
  lemma Associative(a: string, b: string, c: string)
    ensures a + b + c == a + (b + c)
  {
  }

  /** Proof step for `FormatExample`: the head of the worked example, as one literal. */
  lemma ExampleHead()
    ensures "Smith, J" + ", & " + "Doe, A" + " (" + "2020" + "). " + "Deep Work"
      == "Smith, J, & Doe, A (2020). Deep Work"
  {
    assert "Smith, J" + ", & " + "Doe, A" == "Smith, J, & Doe, A";
  }

  // ----- get_citation: from extracted metadata to a Citation -----

  /**
   * The PDF-metadata branch of `get_citation`: a citation exactly when the
   * (lower-cased) metadata has a non-empty "title"; authors are the "author"
   * string split at commas, unstripped, or none; the year is the first four
   * characters of "creationdate"; the DOI is "doi" as found.
   */
  function FromPdfMetadata(metadata: Option<map<string, string>>): (c: Option<Citation>)
    ensures c.Some? <==> metadata.Some? && Lookup(metadata.value, "title", "") != ""
    ensures c.Some? ==>
      && c.value.title == metadata.value["title"]
      && c.value.year <= Lookup(metadata.value, "creationdate", "")
      && |c.value.year| == Min(|Lookup(metadata.value, "creationdate", "")|, 4)
      && (c.value.authors == [] <==> Lookup(metadata.value, "author", "") == "")
      && (forall i :: 0 <= i < |c.value.authors| ==> ',' !in c.value.authors[i])
      && c.value.doi == (if "doi" in metadata.value then Some(metadata.value["doi"]) else None)
      && c.value.journal == None && c.value.volume == None && c.value.issue == None
      && c.value.publisher == None && c.value.url == None
  {
    if metadata.Some? && Lookup(metadata.value, "title", "") != "" then
      var m := metadata.value;
      var author := Lookup(m, "author", "");
      Some(Citation(
        m["title"],
        if author != "" then SplitOn(author, ',') else [],
        Prefix(Lookup(m, "creationdate", ""), 4),
        if "doi" in m then Some(m["doi"]) else None,
        None, None, None, None, None))
    else None
  }

  /**
   * A PDF document-information dictionary names its entries with PDF name
   * keys ("/Title", "/Author", ...). `extract_pdf_metadata` only lower-cases
   * them, so every key it returns still begins with '/'.
   */
  predicate NameKeyed(m: map<string, string>) {
    forall k :: k in m ==> |k| > 0 && k[0] == '/'
  }

  /** As written, `metadata.get('title')` never finds such a key, so the metadata branch is never taken. */
  lemma PdfTitleNeverFound(m: map<string, string>)
    requires NameKeyed(m)
    ensures FromPdfMetadata(Some(m)) == None
  {
    assert "title" !in m;
  }

  /** The dictionary with the leading '/' of every name key removed. */
  function WithoutSlash(m: map<string, string>): (r: map<string, string>)
    requires NameKeyed(m)
    ensures forall k :: k in r <==> "/" + k in m
    ensures forall k :: k in r ==> r[k] == m["/" + k]
  {
    assert forall k :: k in m ==> k == "/" + k[1..];
    var r := map k | k in m :: k[1..] := m[k];
    assert forall k :: "/" + k in m ==> ("/" + k)[1..] == k;
    r
  }

  /**
   * With the '/' removed, as evidently intended, a PDF whose "/title" entry is
   * non-empty yields a citation with that title and that "/doi".
   */
  lemma PdfTitleFoundWithoutSlash(m: map<string, string>)
    requires NameKeyed(m)
    ensures FromPdfMetadata(Some(WithoutSlash(m))).Some? <==> "/title" in m && m["/title"] != ""
    ensures FromPdfMetadata(Some(WithoutSlash(m))).Some? ==>
      && FromPdfMetadata(Some(WithoutSlash(m))).value.title == m["/title"]
      && FromPdfMetadata(Some(WithoutSlash(m))).value.doi == (if "/doi" in m then Some(m["/doi"]) else None)
  {
    assert "/" + "title" == "/title";
    assert "/" + "doi" == "/doi";
  }

  /** The authors taken from PDF metadata join back, with commas, into the "author" string. */
  lemma PdfAuthorsRejoin(m: map<string, string>)
    requires FromPdfMetadata(Some(m)).Some?
    ensures JoinWith(",", FromPdfMetadata(Some(m)).value.authors) == Lookup(m, "author", "")
  {
    var author := Lookup(m, "author", "");
    if author != "" {
      SplitOnJoin(author, ',');
    }
  }

  /** One entry of a CrossRef work's "author" list. */
  datatype CrossrefAuthor = CrossrefAuthor(family: Option<string>, given: Option<string>)

  /**
   * The fields of a CrossRef work that `get_citation` reads. `datePartsOfPrint`
   * is "published-print"."date-parts", `None` when either key is missing.
   */
  datatype CrossrefWork = CrossrefWork(
    title: Option<seq<string>>,
    author: Option<seq<CrossrefAuthor>>,
    datePartsOfPrint: Option<seq<seq<nat>>>,
    doi: Option<string>,
    containerTitle: Option<seq<string>>,
    volume: Option<string>,
    issue: Option<string>)

  /** The exception a Python list index `[0]` raises on an empty list. */
  datatype MappingError = IndexError

  /** `family + ", " + given`, each defaulting to "". */
  function CrossrefName(a: CrossrefAuthor): string {
    a.family.GetOr("") + ", " + a.given.GetOr("")
  }

  /**
   * The CrossRef branch of `get_citation`. `fallbackTitle` is the file-name
   * stem the lookup was made with. An empty "title", "container-title" or
   * "date-parts" list makes the `[0]` raise.
   */
  function FromCrossref(w: CrossrefWork, fallbackTitle: string): (r: Result<Citation, MappingError>)
    ensures r.Ok? <==>
      && w.title.GetOr([fallbackTitle]) != []
      && w.containerTitle.GetOr([""]) != []
      && (w.datePartsOfPrint.Some? ==> w.datePartsOfPrint.value != [] && w.datePartsOfPrint.value[0] != [])
    ensures r.Ok? ==>
      && r.value.title == w.title.GetOr([fallbackTitle])[0]
      && |r.value.authors| == |w.author.GetOr([])|
      && (forall i :: 0 <= i < |r.value.authors| ==> r.value.authors[i] == CrossrefName(w.author.GetOr([])[i]))
      && (w.datePartsOfPrint.None? ==> r.value.year == "")
      && (w.datePartsOfPrint.Some? ==> r.value.year == Decimal(w.datePartsOfPrint.value[0][0]))
      && r.value.doi == w.doi && r.value.volume == w.volume && r.value.issue == w.issue
      && r.value.journal == (if w.containerTitle.Some? then Some(w.containerTitle.value[0]) else None)
      && r.value.publisher == None && r.value.url == None
  {
    var titles := w.title.GetOr([fallbackTitle]);
    var containers := w.containerTitle.GetOr([""]);  // stands for [None]
    if titles == [] || containers == [] then Err(IndexError)
    else if w.datePartsOfPrint.Some? && (w.datePartsOfPrint.value == [] || w.datePartsOfPrint.value[0] == []) then
      Err(IndexError)
    else
      var authors := w.author.GetOr([]);
      var year := if w.datePartsOfPrint.Some? then Decimal(w.datePartsOfPrint.value[0][0]) else "";
      Ok(Citation(
        titles[0],
        seq(|authors|, i requires 0 <= i < |authors| => CrossrefName(authors[i])),
        year,
        w.doi,
        if w.containerTitle.Some? then Some(containers[0]) else None,
        w.volume,
        w.issue,
        None, None))
  }

  /** The position of the last '.' of `s`, or -1. */
  function LastDot(s: string): (i: int)
    ensures -1 <= i < |s|
    ensures i >= 0 ==> s[i] == '.'
    ensures forall j :: i < j < |s| ==> s[j] != '.'
  {
    if s == [] then -1
    else if s[|s| - 1] == '.' then |s| - 1
    else LastDot(s[..|s| - 1])
  }

  predicate AllDots(s: string) {
    forall j :: 0 <= j < |s| ==> s[j] == '.'
  }

  /**
   * `os.path.splitext(name)[0]`: the name up to its last '.', unless only
   * dots come before that '.' (a leading-dot name has no extension).
   */
  function Stem(name: string): (stem: string)
    ensures stem <= name
    ensures |stem| < |name| ==>
      name[|stem|] == '.' && !AllDots(stem) && forall j :: |stem| < j < |name| ==> name[j] != '.'
    ensures |stem| == |name| ==> LastDot(name) == -1 || AllDots(name[..LastDot(name)])
  {
    var i := LastDot(name);
    if i >= 0 && !AllDots(name[..i]) then name[..i] else name
  }

  /**
   * `get_citation` without manual input: the PDF metadata when it has a
   * title, otherwise the CrossRef work found for the file's stem (which is
   * also the fallback title), otherwise none. `metadata` and `crossref` stand
   * for `extract_pdf_metadata` and `search_crossref`.
   */
  function GetCitation(filePath: string, metadata: Option<map<string, string>>,
                       crossref: string -> Option<CrossrefWork>): (r: Result<Option<Citation>, MappingError>)
    ensures FromPdfMetadata(metadata).Some? ==> r == Ok(FromPdfMetadata(metadata))
    ensures FromPdfMetadata(metadata).None? ==>
      var title := Stem(Basename(filePath));
      match crossref(title)
      case None => r == Ok(None)
      case Some(w) => (r.Ok? <==> FromCrossref(w, title).Ok?) && (r.Ok? ==> r.value == Some(FromCrossref(w, title).value))
  {
    var fromPdf := FromPdfMetadata(metadata);
    if fromPdf.Some? then Ok(fromPdf)
    else
      var title := Stem(Basename(filePath));
      match crossref(title)
      case None => Ok(None)
      case Some(w) =>
        match FromCrossref(w, title)
        case Err(e) => Err(e)
        case Ok(c) => Ok(Some(c))
  }
}
