# A verified model of the RAG back end's text and ranking core

This project models the deterministic core of a retrieval-augmented-generation back end written in Python. Dafny proves properties of the model.

- **Chunker.** `chunk_text` packs the words of extracted text greedily into chunks of bounded length.
- **Citations.** The `Citation` record and its APA rendering `format_citation`. Also the mappings in `get_citation` that build a citation from PDF metadata or from a CrossRef work.
- **Online search.** `search_springer` and `search_arxiv` turn API records into two position-aligned lists of chunks and citations. The model includes their error policy and the three-attempt retry.
- **Retriever.** The `OptimizedRetriever` class:
  - it flattens the title → chunks knowledge base into the parallel lists `text_chunks`/`metadata`;
  - it builds or loads the index;
  - it merges online results into the knowledge base;
  - it ranks nearest-neighbour output into a thresholded, stably sorted top-k list.
- **History.** The completions log: self-healing load, appending user inputs and model responses, and word statistics.

Files, one module each:
- `Wrappers.dfy`: `Option` and `Result`.
- `Text.dfy`: Python string behaviour the core relies on:
  - `str.split()` with Python's whitespace set;
  - `" ".join`, `str.split(',')` and `s[:4]`;
  - `str` of a non-negative integer;
  - `os.path.basename`.
- `Chunking.dfy`, `Citations.dfy`, `SearchOnline.dfy`, `Retriever.dfy`, `History.dfy`: one per source file.

Modelling choices:
- **Imperative code stays imperative.** Code that changes state step by step is modelled with methods and loops. This covers `chunk_text`, the two search loops, the retriever class and the two history appends. Each method's `ensures` ties its result to a specification function, and lemmas prove what that function means.
- **Files are stored values.** The knowledge-base file, the FAISS index file and the history file are held in fields as values: absent, unreadable, or a parsed JSON object.
- **External inputs are parameters.** These are:
  - the sentence encoder, the FAISS search result and the HTTP and arXiv replies;
  - the CrossRef lookup and the extracted PDF metadata;
  - timestamps and user settings.
- **Dictionaries keep insertion order.** A JSON object is a sequence of key/value pairs in insertion order, so the order that Python dict iteration gives is modelled.

## Model

| member | source | states |
|---|---|---|
| Chunking.ChunkText | backend/pdf_processing/chunking.py:2-26 | Lossless: the words of the chunks, in order, are exactly `text.split()`, and there are chunks exactly when there are words. Each chunk is its own words joined by single spaces. A chunk of two or more words is at most `chunk_size` long. Only the first chunk can be empty, and it is empty exactly when the first word alone exceeds `chunk_size`. Greedy: the next chunk's first word would not have fitted after each chunk |
| Chunking.BlankTextNoChunks | backend/pdf_processing/chunking.py:13-26 | Empty or whitespace-only text yields no chunks |
| Text.Words | backend/pdf_processing/chunking.py:13 | Every token of `split()` is non-empty and contains no whitespace |
| Text.WordsEmptyIffBlank | backend/pdf_processing/chunking.py:13 | `split()` finds no token exactly when the text is all whitespace |
| Text.WordsOfJoin | backend/pdf_processing/chunking.py:21 | Splitting a single-space join of words gives those words back |
| Text.JoinLength | backend/pdf_processing/chunking.py:18 | A join of n words has their letters plus n−1 separators. This is what the packing test measures |
| Text.Prefix | backend/rag/search_online.py:50 | `s[:4]` is a prefix of `s` of length min(len(s), 4) |
| Text.SplitOnJoin | backend/rag/citation.py:99 | Joining the parts of `split(',')` with ',' restores the string |
| Text.DecimalRoundTrip | backend/rag/search_online.py:86 | `str` of a year reads back as the same number |
| Text.Basename | backend/history/history_manager.py:106 | The base name is a slash-free suffix of the path, preceded by '/' when shorter |
| Citations.AuthorListIsApa | backend/rag/citation.py:54-58 | The join-based author part equals the author-by-author APA list: nothing, the single name, "A, & B", or "A, " before the rest |
| Citations.FormatCitation | backend/rag/citation.py:51-72 | Any style other than "apa" gives "". An "apa" reference starts with "{authors} ({year}). {title}" |
| Citations.ApaLayout | backend/rag/citation.py:60-69 | An "apa" reference is exactly the head, then the journal clause, then the DOI link. The journal clause is "" without a journal, ". {journal}" without a volume, ". {journal}, {volume}" without an issue, and ". {journal}, {volume}({issue})" otherwise. The DOI link is ". https://doi.org/{doi}" for a non-empty DOI, otherwise "". Empty strings count as absent |
| Citations.FormatWithoutAuthors | backend/rag/citation.py:54-60 | With no authors the reference starts with " (" and the year |
| Citations.DoiComesLast | backend/rag/citation.py:67-68 | A non-empty DOI appends ". https://doi.org/{doi}" after everything else, independently of the journal clause |
| Citations.VolumeNeedsJournal | backend/rag/citation.py:61-66 | Without a journal, neither volume nor issue is printed |
| Citations.IssueNeedsVolume | backend/rag/citation.py:63-66 | Without a volume, the issue is not printed |
| Citations.PublisherAndUrlUnused | backend/rag/citation.py:60-69 | Publisher and URL never affect the reference |
| Citations.FormatExample | backend/rag/citation.py:51-69 | Smith, J; Doe, A; 2020; Deep Work; J Sci; 5; 2; 10.1/x gives "Smith, J, & Doe, A (2020). Deep Work. J Sci, 5(2). https://doi.org/10.1/x" |
| Citations.FromPdfMetadata | backend/rag/citation.py:94-102 | A citation exists exactly when a non-empty title is present. It keeps that title. The year is the first min(len, 4) characters of "creationdate". There are no authors exactly when "author" is empty. No author contains ','. The DOI is the "doi" entry, or none when there is no such key. Journal, volume, issue, publisher and URL are none |
| Citations.PdfTitleNeverFound | backend/rag/citation.py:95 | When every metadata key begins with '/', as PDF name keys do, the metadata branch yields no citation |
| Citations.WithoutSlash | backend/rag/citation.py:29 | Removing the leading '/' maps each name key "/k" to "k" with the same value, and nothing else |
| Citations.PdfTitleFoundWithoutSlash | backend/rag/citation.py:94-102 | With the '/' removed, the metadata branch yields a citation exactly when "/title" is present and non-empty. It carries that title and the "/doi" entry |
| Citations.PdfAuthorsRejoin | backend/rag/citation.py:99 | The PDF authors, joined with ',', give back the "author" string unstripped |
| Citations.FromCrossref | backend/rag/citation.py:109-119 | The mapping fails (IndexError) exactly when the title, container-title or date-parts list it indexes is empty. Otherwise it gives the first title (the file stem when absent), one "family, given" per author in order, the printed year or "", and DOI/volume/issue as found. The journal is the first container title, or none when "container-title" is missing. Publisher and URL are none |
| Citations.Stem | backend/rag/citation.py:105-106 | `splitext(name)[0]` is a prefix of the name. When shorter, the name continues with the last '.' and something other than dots precedes it. When equal, the name has no '.' or only dots before its last one |
| Citations.GetCitation | backend/rag/citation.py:93-121 | The metadata citation wins when there is one. Otherwise the CrossRef work found for the file stem is mapped, with the stem as fallback title. Otherwise the result is none |
| SearchOnline.OnRequestException | backend/rag/search_online.py:61-66 | The handler re-raises exactly when the guard holds and otherwise returns ([], []) |
| SearchOnline.RateLimitNeverReraised | backend/rag/search_online.py:62 | For every response, and for none, the guard as written does not fire, because a 429 response is itself falsy. So 429 is swallowed: the handler returns ([], []) |
| SearchOnline.OnRequestExceptionIntended | backend/rag/search_online.py:62 | With the corrected guard, exactly a 429 response is re-raised |
| SearchOnline.CorrectionOnlyAffects429 | backend/rag/search_online.py:61-66 | For every response, and for none, the corrected handler differs from the written one exactly on a 429 response |
| SearchOnline.ContributingExactly | backend/rag/search_online.py:40-44 | A record contributes exactly when its abstract is non-empty |
| SearchOnline.ContributingAppend | backend/rag/search_online.py:40-57 | Contributions follow record order: those of a concatenation are those of each part |
| SearchOnline.ContributingGiven | backend/rag/search_online.py:42-44 | Every contributing record has a non-empty abstract |
| SearchOnline.SearchSpringer | backend/rag/search_online.py:22-66 | For a JSON body the result is one abstract and one citation per contributing record, in record order (year `publicationDate[:4]`, publisher "Springer Nature", missing fields ""). An error status, a failed request or a non-JSON body gives ([], []) through the handler. Nothing escapes |
| SearchOnline.ArxivCitation | backend/rag/search_online.py:83-90 | Journal "arXiv", url the entry id, and a year that reads back as the publication year |
| SearchOnline.SearchArxiv | backend/rag/search_online.py:72-97 | One summary and one citation per result, position by position. Any failure gives ([], []). Nothing escapes |
| SearchOnline.Retry | backend/rag/search_online.py:18-19 | There are between 1 and 3 attempts. The result is the last attempt's outcome. Every earlier attempt raised. A failure escapes only after the third |
| Retriever.Put | backend/rag/retriever.py:115-119 | After `kb[key] = v`, `key` holds `v` and every other key keeps its value. An existing key keeps its place and a new one goes last |
| Retriever.GetFindsEntry | backend/rag/retriever.py:115-119 | In an object with distinct keys, looking up a stored key gives the value stored with it |
| Retriever.PutKeepsDistinct | backend/rag/retriever.py:115-119 | Storing under a key keeps the keys distinct |
| Retriever.MergeKeepsDistinct | backend/rag/retriever.py:114-126 | Merging a batch of results keeps the keys distinct |
| Retriever.PutNewKey | backend/rag/retriever.py:115-119 | Storing under a key not yet present appends the pair at the end |
| Retriever.OnlineEntryLoadsKeyNames | backend/rag/retriever.py:66-68 | Reloading after an online result is stored under a new key adds exactly the chunks "text", "citation" and "metadata". The fetched text is among the chunks only if it already was (or is one of those names) |
| Retriever.IntendedItems | backend/rag/retriever.py:66-68 | With the correction, an online result contributes its text and a chunk list contributes its chunks |
| Retriever.OnlineEntryLoadsText | backend/rag/retriever.py:66-68 | With the correction, an online result stored under a new key adds exactly its text as a chunk |
| Retriever.CorrectionOnlyAffectsOnlineEntries | backend/rag/retriever.py:66-68 | For a knowledge base of chunk lists only, the corrected and the written flattening agree |
| Retriever.Zip | backend/rag/retriever.py:114 | `zip` pairs positions up to the shorter list |
| Retriever.LaterDuplicateWins | backend/rag/retriever.py:114-126 | The last result of a batch stored under a key is what that key holds |
| Retriever.MergeKeepsOthers | backend/rag/retriever.py:114-126 | A key no result is stored under keeps its value |
| Retriever.MergeKeepsKeyOrder | backend/rag/retriever.py:114-126 | Merging never removes or reorders existing keys |
| Retriever.MergeResults | backend/rag/retriever.py:114-119 | The merge loop stores each zipped (chunk, citation) under "{source}_{title}", in order |
| Retriever.FlatLengths | backend/rag/retriever.py:63-69 | The flattened chunk and metadata lists have equal length |
| Retriever.FlatPositions | backend/rag/retriever.py:66-69 | Item j of entry p is at position (items of entries before p) + j, with metadata {"title": key of p}. Order is key order, then item order |
| Retriever.Similarity | backend/rag/retriever.py:194 | 1/(1+d) lies in (0, 1] for a distance d ≥ 0 |
| Retriever.CollectFails | backend/rag/retriever.py:190-202 | Collection fails (IndexError) exactly when a neighbour that passed the skip and the threshold names a position the lists lack |
| Retriever.CollectHits | backend/rag/retriever.py:190-202 | At most top_k results are collected. Each is built from a kept neighbour among the first top_k, and every kept neighbour is present |
| Retriever.SortSorts | backend/rag/retriever.py:205 | The sort orders by non-increasing similarity and is a permutation |
| Retriever.SortIsStable | backend/rag/retriever.py:205 | For every similarity value, results with that value keep their order |
| Retriever.RankedMeaning | backend/rag/retriever.py:187-205 | When ranking succeeds, the output: is sorted by non-increasing similarity with ties in neighbour order; has at most top_k results; has similarity ≥ 0.3 throughout; has `text_chunks[idx]`/`metadata[idx]` for one of the first top_k neighbours; and contains every such kept neighbour. Ranking fails exactly on an out-of-range kept neighbour |
| Retriever.OptimizedRetriever.constructor | backend/rag/retriever.py:12-32 | The retriever starts with empty lists and no index, and a missing knowledge base is created as {}. Every method keeps the lists parallel and the stored keys distinct |
| Retriever.OptimizedRetriever.LoadKnowledgeBase | backend/rag/retriever.py:54-76 | The lists are replaced by the flattened knowledge base, not accumulated. An unreadable file is reset to {} and the lists are kept. A missing file raises and changes nothing. The lists stay parallel |
| Retriever.OptimizedRetriever.LoadOrCreateIndex | backend/rag/retriever.py:78-99 | An existing index file is loaded with no check against the chunks. Otherwise the new index holds one embedding per chunk, in order, and is saved |
| Retriever.OptimizedRetriever.LoadOrInitializeKnowledgeBase | backend/rag/retriever.py:36-52 | A non-empty knowledge base is loaded and indexed (true), and the saved index file is then the index in use. An empty one changes nothing. A missing or unreadable file is reset to {} (false) |
| Retriever.OptimizedRetriever.SearchAndUpdate | backend/rag/retriever.py:101-139 | On success, the knowledge base becomes the arXiv results merged and then the Springer results merged, and the lists are reloaded from it. The index is the existing index file, or else one embedding per reloaded chunk, and the saved index file is then that index, so every later update keeps it. Any search failure or unreadable knowledge base gives false and changes nothing |
| Retriever.OptimizedRetriever.RetrieveRelevantChunks | backend/rag/retriever.py:175-205 | With no index the call fails. Otherwise its result is the ranking whose meaning RankedMeaning states |
| History.Loaded | backend/history/history_manager.py:33-49 | A stored history is returned as is. A missing, blank or malformed file yields {"completions": []} |
| History.ResponseText | backend/history/history_manager.py:94-98 | The text is the first choice's "text" ("" when absent, or when "choices" is missing) or `str` of a non-dict. IndexError exactly for an empty "choices" |
| History.ModelOf | backend/history/history_manager.py:104-108 | The model path and system prompt come from the settings (default ""). The name is `os.path.basename` of the path: its longest suffix without '/', so when shorter than the path it follows a '/' |
| History.SharesAddUp | backend/history/history_manager.py:139-140 | For a positive total the two percentages add up to 100, and each lies in [0, 100] |
| History.ContentStatistics | backend/history/history_manager.py:118-142 | Word counts are over user inputs and model contents. Percentages are both 0 with no words. Otherwise the user percentage is user words / total words × 100 and the model percentage is model words / total words × 100, and they add up to 100. total_exchanges is the number of entries div 2 |
| History.WordsOfAppend | backend/history/history_manager.py:128-129 | Word counts of concatenated entry lists add up |
| History.WordsOfSwap | backend/history/history_manager.py:125-129 | Word counts do not depend on the order of entry blocks |
| History.UserEntryCounts | backend/history/history_manager.py:125-128 | A user entry adds the words of its input to the user count and leaves the model count unchanged |
| History.BlankAddsNoWords | backend/history/history_manager.py:128 | A whitespace-only input adds no words |
| History.OtherEntriesIgnored | backend/history/history_manager.py:125-126 | Entries of other types count no words |
| History.StatisticsExample | backend/history/history_manager.py:118-142 | A user input of "a b c" and a model entry of "d e" give 3, 2, 60, 40 and 1 exchange |
| History.HistoryStore.LoadHistory | backend/history/history_manager.py:33-49 | The call returns the loaded history. A missing, blank or malformed file is rewritten as {"completions": []} |
| History.HistoryStore.AddUserInput | backend/history/history_manager.py:61-78 | The saved history is the loaded entries plus exactly one user entry at the end. A missing "completions" starts as [] |
| History.HistoryStore.AddModelResponse | backend/history/history_manager.py:81-116 | The saved history is the loaded entries plus exactly one model entry (text, timestamp, model info) at the end. For an empty "choices" it raises and saves nothing new |
| History.HistoryStore.CalculateContentStatistics | backend/history/history_manager.py:118-142 | The statistics are those of the loaded entries |

## Left out

- **Foreign components.** SentenceTransformer encoding, FAISS and the HTTP, arXiv, PyPDF2 and CrossRef clients are not modelled. Their results are parameters: an encoder function, the search's distance/index rows, the replies, and the metadata dictionary.
- **I/O and console output.** `print`, file opening and `os.makedirs` are not modelled. Writes replace the stored value.
- **Knowledge-base values.** A knowledge-base value is either a list of chunks or the object `search_and_update` writes for an online result. For the latter, `load_knowledge_base` iterates the object's keys, so "text", "citation" and "metadata" become chunks. The model reproduces this; see Findings.
- **Non-object JSON.** A knowledge base whose top level is a list, or whose value is null or a number, would make `load_knowledge_base` raise. These are not modelled. List items are appended as they are, and a string value would be iterated character by character; the model keeps values as lists of strings or online entries.
- **Rate limits and waits.** The `ratelimit` window (`sleep_and_retry`, `limits`) and tenacity's exponential waits are time-based. Only the attempt count is modelled.
- **Search parameters.** The query, API key, `max_results` and paging do not affect the normalisation, so they are not modelled.
- **Springer JSON errors.** A body that is not JSON is treated as a `RequestException` without a response. This matches requests 2.27 and later, where that decoding error is a `RequestException`.
- **Float behaviour.** Similarities are exact reals, not float32. `round(..., 2)` of the percentages is not modelled: percentages are exact.
- **Index dimension.** The index's dimension and FAISS's own checks are not modelled. `RetrieveRelevantChunks` requires what a FAISS search for `2*top_k` neighbours returns: two rows of that length, non-negative distances, and indices ≥ −1. It also requires `top_k ≥ 1`, which FAISS demands.
- **Manual citation entry.** The `manual_input` branch of `get_citation` reads from the console.
- **PDF metadata keys.** `extract_pdf_metadata` lower-cases PyPDF2's keys, which begin with '/'. The model takes the resulting dictionary as a parameter. `Citations.GetCitation` uses it as written; see Findings.
- **JSON null in Springer records.** `Option.None` stands for a missing key, and a JSON null is not modelled apart from it. In the Python, a null "records", or a null "publicationDate" in a record with an abstract, raises TypeError (search_online.py:40, 50). A TypeError is not a `RequestException`, so it escapes the handler and tenacity retries it.
- **Entries without a type.** In `calculate_content_statistics`, entries with no "type" key, or a "user"/"model" entry missing its text field, would raise KeyError. These are not modelled.
- **Other top-level history keys.** Keys other than "completions" are not modelled. The Python keeps them untouched.
- **`process_and_update_knowledge_base`.** Its only parameter, `query`, receives the instance when it is called as a method, so it can never receive a query. It assigns a global and rewrites the file without truncating it. Its failures are caught and printed (retriever.py:172).
- **Other modules.** The Flask application, the model loader and downloader, user-settings storage and `rag_experiment.py` are not part of this model.
- **Stale index.** When an index file already exists, the reload in `search_and_update` loads that file again, so the merged chunks are not indexed. The first index built is saved, so every later update keeps it. The contracts of `LoadOrInitializeKnowledgeBase` and `SearchAndUpdate` state this; they do not claim the index covers the new chunks.

## Findings

| source | as written | input that shows it | evidently intended | confidence | as-written member | corrected member |
|---|---|---|---|---|---|---|
| backend/rag/search_online.py:62 | `e.response and e.response.status_code == 429`. A `requests` response is falsy exactly for an HTTP error status, 400 ≤ status < 600 | A Springer reply with status 429: `raise_for_status` raises an HTTPError carrying that response, which is falsy, so the handler returns ([], []) and the retry policy never sees the error | Re-raise on a 429 response so that the retry policy makes up to three attempts | not executed; relies on `Response.__bool__` being `Response.ok` | SearchOnline.RateLimitNeverReraised | SearchOnline.OnRequestExceptionIntended |
| backend/rag/citation.py:95 | `metadata.get('title')` on the dictionary built at line 29. PyPDF2 keys are PDF names such as '/Title', and lower-casing gives '/title' | Any PDF whose document information has a title: every key begins with '/', so 'title' is never found and the CrossRef search runs instead | Remove the leading '/' so that the PDF's own title, author and DOI are used. The year would still be `creationdate[:4]` (line 100), which for a PDF date string "D:YYYYMMDD…" is "D:20", not a year | not executed; relies on PyPDF2 keeping the '/' of PDF name keys | Citations.PdfTitleNeverFound | Citations.PdfTitleFoundWithoutSlash |
| backend/rag/retriever.py:66-68 | `for chunk in chunks` over each knowledge-base value. For an online result, `search_and_update` stored an object (lines 115-119), and iterating it yields its keys | Any successful `search_and_update` with one arXiv result: after the reload, `text_chunks` ends with "text", "citation" and "metadata", and the fetched abstract is not retrievable | An online result contributes its "text" as a chunk | not executed; follows from Python iterating a dict over its keys | Retriever.OnlineEntryLoadsKeyNames | Retriever.OnlineEntryLoadsText |

`SearchOnline.SearchSpringer` keeps the handler as written, because it models the code. Nothing else in the model depends on which handler is used: the retriever takes each search's outcome as a parameter. With the corrected handler, a 429 yields `Raised`, and `SearchOnline.Retry` then makes up to three attempts: it stops at the first that does not raise, and makes three when every attempt is rate-limited.

`Citations.GetCitation` takes the metadata dictionary as a parameter and reads it as written. The corrected behaviour is `GetCitation` given `Citations.WithoutSlash` of the dictionary. `Citations.PdfTitleFoundWithoutSlash` proves that the metadata branch is then taken for every PDF with a title.

`Retriever.OptimizedRetriever.LoadKnowledgeBase` keeps the flattening as written, because it models the code. The corrected flattening is `Retriever.IntendedFlatChunks`, which uses `Retriever.IntendedItems`. `Retriever.CorrectionOnlyAffectsOnlineEntries` proves that it differs from the written one only on online results.
