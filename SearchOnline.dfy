/**
 * The online search of `backend/rag/search_online.py`: the Springer Nature and
 * arXiv replies are normalised into two position-aligned lists, text chunks
 * and citations, with the source's error policy, and each search runs under a
 * retry policy of at most three attempts. The HTTP call and the arXiv client
 * are not modelled: their replies are parameters.
 */
module SearchOnline {
  import opened Wrappers
  import opened Text
  import opened Citations

  /** The result of one call of a search function: its two lists, or an exception it let escape. */
  datatype SearchOutcome = Returned(chunks: seq<string>, citations: seq<Citation>) | Raised

  /** Both lists empty: the "degrade" result `([], [])`. */
  const Nothing: SearchOutcome := Returned([], [])

  // ----- Springer Nature -----

  datatype SpringerAuthor = SpringerAuthor(name: Option<string>)

  /** The fields of a Springer "records" entry that are read; `None` is a missing key. */
  datatype SpringerRecord = SpringerRecord(
    abstractText: Option<string>,
    title: Option<string>,
    authors: Option<seq<SpringerAuthor>>,
    publicationDate: Option<string>,
    doi: Option<string>,
    publicationName: Option<string>,
    volume: Option<string>,
    number: Option<string>)

  /** A response body: JSON with or without a "records" key, or not JSON at all. */
  datatype SpringerBody = JsonBody(records: Option<seq<SpringerRecord>>) | NotJson

  datatype HttpResponse = HttpResponse(status: int, body: SpringerBody)

  /** What `requests.get` gave: a response, or a request failure that carries none. */
  datatype SpringerReply = Responded(response: HttpResponse) | NoResponse

  /** `raise_for_status()` raises exactly for the 4xx and 5xx status codes. */
  predicate IsHttpError(status: int) {
    400 <= status < 600
  }

  /** Truthiness of a `requests` response: `Response.__bool__` is `Response.ok`. */
  predicate Truthy(response: HttpResponse) {
    !IsHttpError(response.status)
  }

  /** The guard of the Springer exception handler as written: `e.response and e.response.status_code == 429`. */
  predicate RateLimitGuard(response: Option<HttpResponse>) {
    response.Some? && Truthy(response.value) && response.value.status == 429
  }

  /** What the handler of a `RequestException` does: re-raise when the guard holds, else give up with nothing. */
  function OnRequestException(response: Option<HttpResponse>): (outcome: SearchOutcome)
    ensures outcome.Raised? <==> RateLimitGuard(response)
    ensures outcome.Returned? ==> outcome == Nothing
  {
    if RateLimitGuard(response) then Raised else Nothing
  }

  /**
   * As written, the guard never holds: a response with status 429 is itself
   * falsy, and a failed request carries no response. A 429 is swallowed like
   * any other failure.
   */
  lemma RateLimitNeverReraised(response: Option<HttpResponse>)
    ensures !RateLimitGuard(response)
    ensures OnRequestException(response) == Nothing
  {
  }

  /** The guard as evidently intended: a response is present and its status is 429. */
  predicate IntendedRateLimitGuard(response: Option<HttpResponse>) {
    response.Some? && response.value.status == 429
  }

  /** The handler with the intended guard: only a 429 escapes, to be retried. */
  function OnRequestExceptionIntended(response: Option<HttpResponse>): (outcome: SearchOutcome)
    ensures outcome.Raised? <==> response.Some? && response.value.status == 429
    ensures outcome.Returned? ==> outcome == Nothing
  {
    if IntendedRateLimitGuard(response) then Raised else Nothing
  }

  /** The corrected guard changes the outcome for a 429 and for nothing else. */
  lemma CorrectionOnlyAffects429(response: Option<HttpResponse>)
    ensures OnRequestExceptionIntended(response) != OnRequestException(response) <==>
      response.Some? && response.value.status == 429
  {
  }

  /** The records with a non-empty abstract, in their order: the ones that contribute. */
  function Contributing(records: seq<SpringerRecord>): seq<SpringerRecord> {
    if records == [] then []
    else
      var last := records[|records| - 1];
      Contributing(records[..|records| - 1]) + (if Given(last.abstractText) then [last] else [])
  }

  /** The citation built for a Springer record (`record.get(key, "")` for each field). */
  function SpringerCitation(r: SpringerRecord): Citation {
    var authors := r.authors.GetOr([]);
    Citation(
      r.title.GetOr(""),
      seq(|authors|, i requires 0 <= i < |authors| => authors[i].name.GetOr("")),
      Prefix(r.publicationDate.GetOr(""), 4),
      Some(r.doi.GetOr("")),
      Some(r.publicationName.GetOr("")),
      Some(r.volume.GetOr("")),
      Some(r.number.GetOr("")),
      Some("Springer Nature"),
      None)
  }

  function Abstracts(records: seq<SpringerRecord>): (chunks: seq<string>)
    ensures |chunks| == |records|
  {
    seq(|records|, i requires 0 <= i < |records| => records[i].abstractText.GetOr(""))
  }

  function SpringerCitations(records: seq<SpringerRecord>): (cs: seq<Citation>)
    ensures |cs| == |records|
  {
    seq(|records|, i requires 0 <= i < |records| => SpringerCitation(records[i]))
  }

  /** The contributing records of a concatenation are those of each part, in order. */
  lemma {:induction false} ContributingAppend(a: seq<SpringerRecord>, b: seq<SpringerRecord>)
    ensures Contributing(a + b) == Contributing(a) + Contributing(b)
    decreases |b|
  {
    if b != [] {
      var ab := a + b;
      assert ab[..|ab| - 1] == a + b[..|b| - 1];
      assert ab[|ab| - 1] == b[|b| - 1];
      ContributingAppend(a, b[..|b| - 1]);
    } else {
      assert a + b == a;
    }
  }

  /** A record contributes if and only if its abstract is non-empty. */
  lemma {:induction false} ContributingExactly(records: seq<SpringerRecord>, r: SpringerRecord)
    ensures r in Contributing(records) <==> r in records && Given(r.abstractText)
  {
    if records != [] {
      var init := records[..|records| - 1];
      ContributingExactly(init, r);
      assert records == init + [records[|records| - 1]];
    }
  }

  /** Every contributing record has a non-empty abstract. */
  lemma {:induction false} ContributingGiven(records: seq<SpringerRecord>)
    ensures forall i :: 0 <= i < |Contributing(records)| ==> Given(Contributing(records)[i].abstractText)
  {
    forall i | 0 <= i < |Contributing(records)|
      ensures Given(Contributing(records)[i].abstractText)
    {
      ContributingExactly(records, Contributing(records)[i]);
    }
  }

  /**
   * `search_springer` for one reply. An error status or a failed request goes
   * to the exception handler; a JSON body yields one abstract and one citation
   * per record with a non-empty abstract, in record order; a body that is not
   * JSON fails like a request.
   */
  method SearchSpringer(reply: SpringerReply) returns (outcome: SearchOutcome)
    ensures outcome.Returned?
    ensures reply.NoResponse? ==> outcome == Nothing
    ensures reply.Responded? && IsHttpError(reply.response.status) ==>
      outcome == OnRequestException(Some(reply.response))
    ensures reply.Responded? && !IsHttpError(reply.response.status) && reply.response.body.NotJson? ==>
      outcome == Nothing
    ensures reply.Responded? && !IsHttpError(reply.response.status) && reply.response.body.JsonBody? ==>
      var used := Contributing(reply.response.body.records.GetOr([]));
      outcome == Returned(Abstracts(used), SpringerCitations(used))
  {
    if reply.NoResponse? {
      return OnRequestException(None);
    }
    var response := reply.response;
    if IsHttpError(response.status) {
      return OnRequestException(Some(response));
    }
    if response.body.NotJson? {
      return OnRequestException(None);
    }
    var records := response.body.records.GetOr([]);
    var chunks: seq<string> := [];
    var citations: seq<Citation> := [];
    for k := 0 to |records|
      invariant chunks == Abstracts(Contributing(records[..k]))
      invariant citations == SpringerCitations(Contributing(records[..k]))
    {
      var record := records[k];
      assert records[..k + 1][..k] == records[..k];
      if Given(record.abstractText) {
        chunks := chunks + [record.abstractText.value];
        citations := citations + [SpringerCitation(record)];
      }
    }
    assert records[..|records|] == records;
    return Returned(chunks, citations);
  }

  // ----- arXiv -----

  /** The fields of an `arxiv.Result` that are read; authors already rendered with `str`. */
  datatype ArxivResult = ArxivResult(
    summary: string,
    title: string,
    authors: seq<string>,
    publishedYear: nat,
    doi: Option<string>,
    entryId: string)

  /** The arXiv client's answer: the results, or an exception while searching or reading them. */
  datatype ArxivReply = Results(results: seq<ArxivResult>) | Failed

  /** The citation built for an arXiv result. */
  function ArxivCitation(r: ArxivResult): (c: Citation)
    ensures c.journal == Some("arXiv") && c.url == Some(r.entryId)
    ensures DecimalValue(c.year) == r.publishedYear
  {
    DecimalRoundTrip(r.publishedYear);
    Citation(r.title, r.authors, Decimal(r.publishedYear), r.doi, Some("arXiv"), None, None, None, Some(r.entryId))
  }

  /**
   * `search_arxiv` for one reply: every result gives its summary and its
   * citation, position by position; any exception degrades to `([], [])`, so
   * nothing ever escapes.
   */
  method SearchArxiv(reply: ArxivReply) returns (outcome: SearchOutcome)
    ensures outcome.Returned?
    ensures reply.Failed? ==> outcome == Nothing
    ensures reply.Results? ==>
      && |outcome.chunks| == |outcome.citations| == |reply.results|
      && forall i :: 0 <= i < |reply.results| ==>
           outcome.chunks[i] == reply.results[i].summary &&
           outcome.citations[i] == ArxivCitation(reply.results[i])
  {
    if reply.Failed? {
      return Nothing;
    }
    var results := reply.results;
    var chunks: seq<string> := [];
    var citations: seq<Citation> := [];
    for k := 0 to |results|
      invariant |chunks| == |citations| == k
      invariant forall i :: 0 <= i < k ==>
        chunks[i] == results[i].summary && citations[i] == ArxivCitation(results[i])
    {
      chunks := chunks + [results[k].summary];
      citations := citations + [ArxivCitation(results[k])];
    }
    return Returned(chunks, citations);
  }

  // ----- Retry policy -----

  /** `stop_after_attempt(3)`. */
  const MaxAttempts: nat := 3

  /**
   * The `tenacity` retry around a search: attempt `i` (from 0) has outcome
   * `outcomeOf(i)`; an attempt that raises is followed by another until the
   * third, after which the failure escapes. The waits between attempts are
   * not modelled.
   */
  method Retry(outcomeOf: nat -> SearchOutcome) returns (result: SearchOutcome, attempts: nat)
    ensures 1 <= attempts <= MaxAttempts
    ensures result == outcomeOf(attempts - 1)
    ensures forall i :: 0 <= i < attempts - 1 ==> outcomeOf(i).Raised?
    ensures result.Raised? ==> attempts == MaxAttempts
  {
    attempts := 1;
    result := outcomeOf(0);
    while result.Raised? && attempts < MaxAttempts
      invariant 1 <= attempts <= MaxAttempts
      invariant result == outcomeOf(attempts - 1)
      invariant forall i :: 0 <= i < attempts - 1 ==> outcomeOf(i).Raised?
      decreases MaxAttempts - attempts
    {
      result := outcomeOf(attempts);
      attempts := attempts + 1;
    }
  }
}
