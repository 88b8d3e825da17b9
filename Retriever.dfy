/**
 * The `OptimizedRetriever` of `backend/rag/retriever.py`. The knowledge-base
 * file (a title -> chunks JSON object) and the FAISS index file are modelled
 * as stored values held in fields; the sentence encoder is a function given
 * to the constructor and the FAISS search result is given to the ranking
 * method as its two rows `(distances, indices)`.
 */
module Retriever {
  import opened Wrappers
  import opened Text
  import opened Citations
  import opened SearchOnline

  /** The metadata entry `{"title": title}` kept for each chunk. */
  datatype ChunkMeta = ChunkMeta(title: string)

  /**
   * A knowledge-base value: a list of chunks (as uploaded documents store
   * them), or the object written for an online result, with the fields
   * "text", "citation" and "metadata" (whose "source" and "title" are
   * `source` and `citation.title`).
   */
  datatype KbValue =
    | Chunks(chunks: seq<string>)
    | OnlineEntry(text: string, citation: Citation, source: string)

  /** A JSON object in key order, as a Python dict keeps it. */
  type Kb = seq<(string, KbValue)>

  /** The knowledge-base file: absent, not valid JSON, or a JSON object. */
  datatype KbFile = Missing | Corrupt | Json(kb: Kb)

  type Embedding = seq<real>

  /** What `for chunk in value` yields: the chunks of a list, the keys of an object. */
  function Items(value: KbValue): seq<string> {
    match value
    case Chunks(chunks) => chunks
    case OnlineEntry(_, _, _) => ["text", "citation", "metadata"]
  }

  function Keys(kb: Kb): (keys: seq<string>)
    ensures |keys| == |kb|
  {
    seq(|kb|, i requires 0 <= i < |kb| => kb[i].0)
  }

  /** `kb.get(key)`. */
  function Get(kb: Kb, key: string): Option<KbValue> {
    if kb == [] then None
    else if kb[0].0 == key then Some(kb[0].1)
    else Get(kb[1..], key)
  }

  /**
   * `kb[key] = value`: an existing key keeps its place and takes the new
   * value, a new key goes last; no other key changes.
   */
  function Put(kb: Kb, key: string, value: KbValue): (r: Kb)
    ensures Get(r, key) == Some(value)
    ensures forall k :: k != key ==> Get(r, k) == Get(kb, k)
    ensures key in Keys(kb) ==> Keys(r) == Keys(kb)
    ensures key !in Keys(kb) ==> Keys(r) == Keys(kb) + [key]
  {
    if kb == [] then [(key, value)]
    else if kb[0].0 == key then
      var r := [(key, value)] + kb[1..];
      assert Keys(kb)[0] == key;
      assert Keys(r) == Keys(kb);
      r
    else
      var rest := Put(kb[1..], key, value);
      assert Keys(kb) == [kb[0].0] + Keys(kb[1..]);
      assert Keys([kb[0]] + rest) == [kb[0].0] + Keys(rest);
      [kb[0]] + rest
  }

  /** A JSON object names each key once, as a Python dict does. */
  predicate DistinctKeys(kb: Kb) {
    forall i, j :: 0 <= i < j < |kb| ==> kb[i].0 != kb[j].0
  }

  /** In an object with distinct keys, `kb.get` of a key finds the value stored with it. */
  lemma {:induction false} GetFindsEntry(kb: Kb, i: nat)
    requires DistinctKeys(kb) && i < |kb|
    ensures Get(kb, kb[i].0) == Some(kb[i].1)
  {
    if i > 0 {
      assert kb[0].0 != kb[i].0;
      assert kb[1..][i - 1] == kb[i];
      GetFindsEntry(kb[1..], i - 1);
    }
  }

  /** `kb[key] = value` keeps the keys distinct. */
  lemma PutKeepsDistinct(kb: Kb, key: string, value: KbValue)
    requires DistinctKeys(kb)
    ensures DistinctKeys(Put(kb, key, value))
  {
    var r := Put(kb, key, value);
    forall i, j | 0 <= i < j < |r|
      ensures r[i].0 != r[j].0
    {
      assert r[i].0 == Keys(r)[i] && r[j].0 == Keys(r)[j];
      if j < |kb| {
        assert Keys(r)[i] == Keys(kb)[i] && Keys(r)[j] == Keys(kb)[j];
      } else {
        assert Keys(r)[i] == Keys(kb)[i];
      }
    }
  }

  // ----- Merging online results -----

  /** `zip(chunks, citations)`: as long as the shorter list. */
  function Zip(chunks: seq<string>, citations: seq<Citation>): (pairs: seq<(string, Citation)>)
    ensures |pairs| == Min(|chunks|, |citations|)
    ensures forall i :: 0 <= i < |pairs| ==> pairs[i] == (chunks[i], citations[i])
  {
    seq(Min(|chunks|, |citations|), i requires 0 <= i < Min(|chunks|, |citations|) => (chunks[i], citations[i]))
  }

  /** The key an online result is stored under: `"arxiv_" + title` or `"springer_" + title`. */
  function EntryKey(source: string, citation: Citation): string {
    source + "_" + citation.title
  }

  function Entry(source: string, pair: (string, Citation)): KbValue {
    OnlineEntry(pair.0, pair.1, source)
  }

  /** The knowledge base after storing each result of `batch` in turn. */
  function Merged(kb: Kb, source: string, batch: seq<(string, Citation)>): Kb {
    if batch == [] then kb
    else
      var last := batch[|batch| - 1];
      Put(Merged(kb, source, batch[..|batch| - 1]), EntryKey(source, last.1), Entry(source, last))
  }

  /** The last result of a batch stored under a key is the one the key holds afterwards. */
  lemma {:induction false} LaterDuplicateWins(kb: Kb, source: string, batch: seq<(string, Citation)>, i: nat)
    requires i < |batch|
    requires forall j :: i < j < |batch| ==> EntryKey(source, batch[j].1) != EntryKey(source, batch[i].1)
    ensures Get(Merged(kb, source, batch), EntryKey(source, batch[i].1)) == Some(Entry(source, batch[i]))
  {
    var n := |batch|;
    if i < n - 1 {
      var init := batch[..n - 1];
      assert init[i] == batch[i];
      forall j | i < j < |init|
        ensures EntryKey(source, init[j].1) != EntryKey(source, init[i].1)
      {
        assert init[j] == batch[j];
      }
      LaterDuplicateWins(kb, source, init, i);
    }
  }

  /** A key that no result of the batch is stored under keeps its value. */
  lemma {:induction false} MergeKeepsOthers(kb: Kb, source: string, batch: seq<(string, Citation)>, key: string)
    requires forall j :: 0 <= j < |batch| ==> EntryKey(source, batch[j].1) != key
    ensures Get(Merged(kb, source, batch), key) == Get(kb, key)
  {
    if batch != [] {
      var init := batch[..|batch| - 1];
      forall j | 0 <= j < |init|
        ensures EntryKey(source, init[j].1) != key
      {
        assert init[j] == batch[j];
      }
      MergeKeepsOthers(kb, source, init, key);
    }
  }

  /** Merging a batch keeps the keys distinct. */
  lemma {:induction false} MergeKeepsDistinct(kb: Kb, source: string, batch: seq<(string, Citation)>)
    requires DistinctKeys(kb)
    ensures DistinctKeys(Merged(kb, source, batch))
  {
    if batch != [] {
      var last := batch[|batch| - 1];
      MergeKeepsDistinct(kb, source, batch[..|batch| - 1]);
      PutKeepsDistinct(Merged(kb, source, batch[..|batch| - 1]), EntryKey(source, last.1), Entry(source, last));
    }
  }

  /** Merging never removes or reorders the keys already present. */
  lemma {:induction false} MergeKeepsKeyOrder(kb: Kb, source: string, batch: seq<(string, Citation)>)
    ensures Keys(kb) <= Keys(Merged(kb, source, batch))
  {
    if batch != [] {
      MergeKeepsKeyOrder(kb, source, batch[..|batch| - 1]);
    }
  }

  /** One of the two merge loops of `search_and_update`. */
  method MergeResults(kb: Kb, source: string, chunks: seq<string>, citations: seq<Citation>) returns (merged: Kb)
    ensures merged == Merged(kb, source, Zip(chunks, citations))
  {
    var batch := Zip(chunks, citations);
    merged := kb;
    for k := 0 to |batch|
      invariant merged == Merged(kb, source, batch[..k])
    {
      assert batch[..k + 1][..k] == batch[..k];
      merged := Put(merged, EntryKey(source, batch[k].1), Entry(source, batch[k]));
    }
    assert batch[..|batch|] == batch;
  }

  // ----- Flattening -----

  function TitleRun(title: string, n: nat): (run: seq<ChunkMeta>)
    ensures |run| == n
  {
    seq(n, _ => ChunkMeta(title))
  }

  /** The chunks of a knowledge base in key order, then item order. */
  function FlatChunks(kb: Kb): seq<string> {
    if kb == [] then []
    else FlatChunks(kb[..|kb| - 1]) + Items(kb[|kb| - 1].1)
  }

  /** The metadata entries that go with `FlatChunks(kb)`: one title per item. */
  function FlatTitles(kb: Kb): seq<ChunkMeta> {
    if kb == [] then []
    else
      var last := kb[|kb| - 1];
      FlatTitles(kb[..|kb| - 1]) + TitleRun(last.0, |Items(last.1)|)
  }

  /** The two flattened lists are parallel. */
  lemma {:induction false} FlatLengths(kb: Kb)
    ensures |FlatChunks(kb)| == |FlatTitles(kb)|
  {
    if kb != [] {
      FlatLengths(kb[..|kb| - 1]);
    }
  }

  lemma FlatSnoc(kb: Kb, x: (string, KbValue))
    ensures FlatChunks(kb + [x]) == FlatChunks(kb) + Items(x.1)
    ensures FlatTitles(kb + [x]) == FlatTitles(kb) + TitleRun(x.0, |Items(x.1)|)
  {
    assert (kb + [x])[..|kb|] == kb;
  }

  /** `kb[key] = value` for a key not yet present appends the pair. */
  lemma {:induction false} PutNewKey(kb: Kb, key: string, value: KbValue)
    requires key !in Keys(kb)
    ensures Put(kb, key, value) == kb + [(key, value)]
  {
    if kb != [] {
      assert Keys(kb)[0] == kb[0].0;
      assert Keys(kb[1..]) == Keys(kb)[1..];
      PutNewKey(kb[1..], key, value);
      assert [kb[0]] + (kb[1..] + [(key, value)]) == kb + [(key, value)];
    }
  }

  /**
   * As written, loading an online result stored under a new key yields the
   * object's key names "text", "citation" and "metadata" as chunks; the
   * fetched text itself is not among the new chunks.
   */
  lemma OnlineEntryLoadsKeyNames(kb: Kb, key: string, text: string, citation: Citation, source: string)
    requires key !in Keys(kb)
    ensures FlatChunks(Put(kb, key, OnlineEntry(text, citation, source))) ==
      FlatChunks(kb) + ["text", "citation", "metadata"]
    ensures text !in ["text", "citation", "metadata"] ==>
      (text in FlatChunks(Put(kb, key, OnlineEntry(text, citation, source))) <==> text in FlatChunks(kb))
  {
    PutNewKey(kb, key, OnlineEntry(text, citation, source));
    FlatSnoc(kb, (key, OnlineEntry(text, citation, source)));
  }

  /** The chunks a value was evidently meant to contribute: an online result contributes its text. */
  function IntendedItems(value: KbValue): (items: seq<string>)
    ensures value.OnlineEntry? ==> items == [value.text]
    ensures value.Chunks? ==> items == Items(value)
  {
    match value
    case Chunks(chunks) => chunks
    case OnlineEntry(text, _, _) => [text]
  }

  /** The chunks of a knowledge base, in key order, with online results contributing their text. */
  function IntendedFlatChunks(kb: Kb): seq<string> {
    if kb == [] then []
    else IntendedFlatChunks(kb[..|kb| - 1]) + IntendedItems(kb[|kb| - 1].1)
  }

  /** With the correction, an online result stored under a new key adds exactly its text. */
  lemma OnlineEntryLoadsText(kb: Kb, key: string, text: string, citation: Citation, source: string)
    requires key !in Keys(kb)
    ensures IntendedFlatChunks(Put(kb, key, OnlineEntry(text, citation, source))) ==
      IntendedFlatChunks(kb) + [text]
  {
    var x := (key, OnlineEntry(text, citation, source));
    PutNewKey(kb, key, x.1);
    assert (kb + [x])[..|kb|] == kb;
  }

  /** The correction changes nothing for a knowledge base of uploaded documents only. */
  lemma {:induction false} CorrectionOnlyAffectsOnlineEntries(kb: Kb)
    requires forall i :: 0 <= i < |kb| ==> kb[i].1.Chunks?
    ensures IntendedFlatChunks(kb) == FlatChunks(kb)
  {
    if kb != [] {
      var init := kb[..|kb| - 1];
      assert forall i :: 0 <= i < |init| ==> init[i] == kb[i];
      CorrectionOnlyAffectsOnlineEntries(init);
    }
  }

  /** Loading one more entry appends its items and as many copies of its title. */
  lemma FlatStep(kb: Kb, p: nat)
    requires p < |kb|
    ensures FlatChunks(kb[..p + 1]) == FlatChunks(kb[..p]) + Items(kb[p].1)
    ensures FlatTitles(kb[..p + 1]) == FlatTitles(kb[..p]) + TitleRun(kb[p].0, |Items(kb[p].1)|)
  {
    assert kb[..p + 1] == kb[..p] + [kb[p]];
    FlatSnoc(kb[..p], kb[p]);
  }

  lemma {:induction false} FlatChunkPositions(kb: Kb, p: nat, j: nat)
    requires p < |kb| && j < |Items(kb[p].1)|
    ensures |FlatChunks(kb[..p])| + j < |FlatChunks(kb)|
    ensures FlatChunks(kb)[|FlatChunks(kb[..p])| + j] == Items(kb[p].1)[j]
  {
    var n := |kb|;
    var init := kb[..n - 1];
    assert kb == init + [kb[n - 1]];
    FlatSnoc(init, kb[n - 1]);
    if p < n - 1 {
      assert init[..p] == kb[..p] && init[p] == kb[p];
      FlatChunkPositions(init, p, j);
    }
  }

  lemma {:induction false} FlatTitlePositions(kb: Kb, p: nat, j: nat)
    requires p < |kb| && j < |Items(kb[p].1)|
    ensures |FlatChunks(kb[..p])| + j < |FlatTitles(kb)|
    ensures FlatTitles(kb)[|FlatChunks(kb[..p])| + j] == ChunkMeta(kb[p].0)
  {
    var n := |kb|;
    var init := kb[..n - 1];
    assert kb == init + [kb[n - 1]];
    FlatSnoc(init, kb[n - 1]);
    FlatLengths(init);
    if p < n - 1 {
      assert init[..p] == kb[..p] && init[p] == kb[p];
      FlatTitlePositions(init, p, j);
    }
  }

  /**
   * Item `j` of entry `p` sits at position `|FlatChunks(kb[..p])| + j` of the
   * flattened chunks, and the metadata at that position is entry `p`'s title.
   */
  lemma FlatPositions(kb: Kb, p: nat, j: nat)
    requires p < |kb| && j < |Items(kb[p].1)|
    ensures |FlatChunks(kb[..p])| + j < |FlatChunks(kb)| == |FlatTitles(kb)|
    ensures FlatChunks(kb)[|FlatChunks(kb[..p])| + j] == Items(kb[p].1)[j]
    ensures FlatTitles(kb)[|FlatChunks(kb[..p])| + j] == ChunkMeta(kb[p].0)
  {
    FlatLengths(kb);
    FlatChunkPositions(kb, p, j);
    FlatTitlePositions(kb, p, j);
  }

  // ----- Ranking -----

  /** A result of `retrieve_relevant_chunks`: text, metadata and similarity. */
  datatype Hit = Hit(text: string, meta: ChunkMeta, similarity: real)

  datatype RetrieveError =
    | IndexNotReady     // `self.index` is still `None`
    | IndexOutOfRange   // the index names a chunk the lists do not have

  /** Results below this similarity are dropped. */
  const MinSimilarity: real := 0.3

  /** The similarity derived from an L2 distance. */
  function Similarity(distance: real): (s: real)
    requires distance >= 0.0
    ensures 0.0 < s <= 1.0
  {
    1.0 / (1.0 + distance)
  }

  /**
   * What a FAISS search for `2 * topK` neighbours gives: two rows of that
   * length, non-negative distances, and positions or -1 for a missing neighbour.
   */
  predicate SearchOutput(distances: seq<real>, indices: seq<int>, topK: int) {
    && topK >= 1
    && |distances| == |indices| == 2 * topK
    && (forall i :: 0 <= i < |distances| ==> distances[i] >= 0.0)
    && (forall i :: 0 <= i < |indices| ==> indices[i] >= -1)
  }

  /** Neighbour `i` survives the skip and the threshold. */
  predicate Kept(distances: seq<real>, indices: seq<int>, topK: int, i: nat)
    requires SearchOutput(distances, indices, topK) && i < |indices|
  {
    indices[i] != -1 && i < topK && Similarity(distances[i]) >= MinSimilarity
  }

  predicate Addressable(chunks: seq<string>, meta: seq<ChunkMeta>, idx: int) {
    0 <= idx < |chunks| && idx < |meta|
  }

  /** The result built for neighbour `i`. */
  function HitAt(chunks: seq<string>, meta: seq<ChunkMeta>, distances: seq<real>, indices: seq<int>, topK: int, i: nat): Hit
    requires SearchOutput(distances, indices, topK) && i < |indices|
    requires Addressable(chunks, meta, indices[i])
  {
    Hit(chunks[indices[i]], meta[indices[i]], Similarity(distances[i]))
  }

  /** The results collected from the first `k` neighbours, or the error that stops collection. */
  function Collect(chunks: seq<string>, meta: seq<ChunkMeta>, distances: seq<real>, indices: seq<int>, topK: int, k: nat)
    : Result<seq<Hit>, RetrieveError>
    requires SearchOutput(distances, indices, topK) && k <= |indices|
  {
    if k == 0 then Ok([])
    else match Collect(chunks, meta, distances, indices, topK, k - 1)
      case Err(e) => Err(e)
      case Ok(hits) =>
        if !Kept(distances, indices, topK, k - 1) then Ok(hits)
        else if !Addressable(chunks, meta, indices[k - 1]) then Err(IndexOutOfRange)
        else Ok(hits + [HitAt(chunks, meta, distances, indices, topK, k - 1)])
  }

  /** Collection fails exactly when a kept neighbour names a position the lists lack. */
  lemma {:induction false} CollectFails(chunks: seq<string>, meta: seq<ChunkMeta>, distances: seq<real>, indices: seq<int>, topK: int, k: nat)
    requires SearchOutput(distances, indices, topK) && k <= |indices|
    ensures Collect(chunks, meta, distances, indices, topK, k).Err? <==>
      exists i :: 0 <= i < k && Kept(distances, indices, topK, i) && !Addressable(chunks, meta, indices[i])
    ensures Collect(chunks, meta, distances, indices, topK, k).Err? ==>
      Collect(chunks, meta, distances, indices, topK, k).error == IndexOutOfRange
  {
    if k > 0 {
      CollectFails(chunks, meta, distances, indices, topK, k - 1);
    }
  }

  /**
   * Collected results: at most `topK`, each built from a kept neighbour, and
   * every kept neighbour present.
   */
  lemma {:induction false} CollectHits(chunks: seq<string>, meta: seq<ChunkMeta>, distances: seq<real>, indices: seq<int>, topK: int, k: nat)
    requires SearchOutput(distances, indices, topK) && k <= |indices|
    requires Collect(chunks, meta, distances, indices, topK, k).Ok?
    ensures var hits := Collect(chunks, meta, distances, indices, topK, k).value;
      && |hits| <= Min(k, topK)
      && (forall h :: h in hits ==>
            exists i :: 0 <= i < k && Kept(distances, indices, topK, i) &&
              Addressable(chunks, meta, indices[i]) && h == HitAt(chunks, meta, distances, indices, topK, i))
      && (forall i :: 0 <= i < k && Kept(distances, indices, topK, i) ==>
            Addressable(chunks, meta, indices[i]) && HitAt(chunks, meta, distances, indices, topK, i) in hits)
  {
    if k > 0 {
      CollectHits(chunks, meta, distances, indices, topK, k - 1);
    }
  }

  // ----- Stable sort by decreasing similarity -----

  /** Places `h`, which came before every element of `sorted`, ahead of those not more similar. */
  function Insert(h: Hit, sorted: seq<Hit>): seq<Hit> {
    if sorted == [] || h.similarity >= sorted[0].similarity then [h] + sorted
    else [sorted[0]] + Insert(h, sorted[1..])
  }

  /** `sorted(hits, key=similarity, reverse=True)`. */
  function SortBySimilarity(hits: seq<Hit>): seq<Hit> {
    if hits == [] then [] else Insert(hits[0], SortBySimilarity(hits[1..]))
  }

  predicate SortedDesc(hits: seq<Hit>) {
    forall i, j :: 0 <= i < j < |hits| ==> hits[i].similarity >= hits[j].similarity
  }

  /** The hits with similarity `s`, in their order. */
  function WithSimilarity(hits: seq<Hit>, s: real): seq<Hit> {
    if hits == [] then []
    else (if hits[0].similarity == s then [hits[0]] else []) + WithSimilarity(hits[1..], s)
  }

  lemma WithSimilarityCons(x: Hit, xs: seq<Hit>, s: real)
    ensures WithSimilarity([x] + xs, s) == (if x.similarity == s then [x] else []) + WithSimilarity(xs, s)
  {
    assert ([x] + xs)[0] == x;
    assert ([x] + xs)[1..] == xs;
  }

  lemma {:induction false} InsertPermutes(h: Hit, sorted: seq<Hit>)
    ensures multiset(Insert(h, sorted)) == multiset(sorted) + multiset{h}
  {
    if sorted != [] && h.similarity < sorted[0].similarity {
      InsertPermutes(h, sorted[1..]);
      assert sorted == [sorted[0]] + sorted[1..];
    }
  }

  /** An element no more similar than a bound, inserted among such elements, keeps them all under it. */
  lemma {:induction false} InsertBounded(h: Hit, sorted: seq<Hit>, top: real)
    requires h.similarity <= top
    requires forall j :: 0 <= j < |sorted| ==> sorted[j].similarity <= top
    ensures forall j :: 0 <= j < |Insert(h, sorted)| ==> Insert(h, sorted)[j].similarity <= top
  {
    if sorted != [] && h.similarity < sorted[0].similarity {
      InsertBounded(h, sorted[1..], top);
    }
  }

  lemma {:induction false} InsertSorted(h: Hit, sorted: seq<Hit>)
    requires SortedDesc(sorted)
    ensures SortedDesc(Insert(h, sorted))
  {
    if sorted != [] && h.similarity < sorted[0].similarity {
      var rest := Insert(h, sorted[1..]);
      InsertSorted(h, sorted[1..]);
      InsertBounded(h, sorted[1..], sorted[0].similarity);
      var out := [sorted[0]] + rest;
      forall i, j | 0 <= i < j < |out|
        ensures out[i].similarity >= out[j].similarity
      {
        assert out[j] == rest[j - 1];
        if i > 0 {
          assert out[i] == rest[i - 1];
        }
      }
    }
  }

  lemma {:induction false} InsertKeepsTies(h: Hit, sorted: seq<Hit>, s: real)
    ensures WithSimilarity(Insert(h, sorted), s) ==
      (if h.similarity == s then [h] else []) + WithSimilarity(sorted, s)
  {
    if sorted != [] && h.similarity < sorted[0].similarity {
      InsertKeepsTies(h, sorted[1..], s);
      WithSimilarityCons(sorted[0], Insert(h, sorted[1..]), s);
      WithSimilarityCons(sorted[0], sorted[1..], s);
      assert [sorted[0]] + sorted[1..] == sorted;
    } else {
      WithSimilarityCons(h, sorted, s);
    }
  }

  /** The sort orders by decreasing similarity and keeps every hit exactly once. */
  lemma {:induction false} SortSorts(hits: seq<Hit>)
    ensures SortedDesc(SortBySimilarity(hits))
    ensures multiset(SortBySimilarity(hits)) == multiset(hits)
  {
    if hits != [] {
      SortSorts(hits[1..]);
      InsertSorted(hits[0], SortBySimilarity(hits[1..]));
      InsertPermutes(hits[0], SortBySimilarity(hits[1..]));
      assert hits == [hits[0]] + hits[1..];
    }
  }

  /** The sort is stable: hits of equal similarity keep their order. */
  lemma {:induction false} SortIsStable(hits: seq<Hit>, s: real)
    ensures WithSimilarity(SortBySimilarity(hits), s) == WithSimilarity(hits, s)
  {
    if hits != [] {
      SortIsStable(hits[1..], s);
      InsertKeepsTies(hits[0], SortBySimilarity(hits[1..]), s);
      WithSimilarityCons(hits[0], hits[1..], s);
      assert [hits[0]] + hits[1..] == hits;
    }
  }

  /** What `retrieve_relevant_chunks` returns once the index exists. */
  function Ranked(chunks: seq<string>, meta: seq<ChunkMeta>, distances: seq<real>, indices: seq<int>, topK: int)
    : Result<seq<Hit>, RetrieveError>
    requires SearchOutput(distances, indices, topK)
  {
    match Collect(chunks, meta, distances, indices, topK, |indices|)
    case Err(e) => Err(e)
    case Ok(hits) =>
      var sorted := SortBySimilarity(hits);
      Ok(sorted[..Min(topK, |sorted|)])
  }

  /**
   * The ranked results: sorted by decreasing similarity with ties in
   * neighbour order, at most `topK`, each above the threshold and built from
   * one of the first `topK` neighbours, every such neighbour present; an
   * error exactly when a kept neighbour is out of range.
   */
  lemma RankedMeaning(chunks: seq<string>, meta: seq<ChunkMeta>, distances: seq<real>, indices: seq<int>, topK: int)
    requires SearchOutput(distances, indices, topK)
    ensures Ranked(chunks, meta, distances, indices, topK).Err? <==>
      exists i :: 0 <= i < |indices| && Kept(distances, indices, topK, i) && !Addressable(chunks, meta, indices[i])
    ensures Ranked(chunks, meta, distances, indices, topK).Ok? ==>
      var out := Ranked(chunks, meta, distances, indices, topK).value;
      var hits := Collect(chunks, meta, distances, indices, topK, |indices|).value;
      && SortedDesc(out)
      && |out| <= topK
      && multiset(out) == multiset(hits)
      && (forall s :: WithSimilarity(out, s) == WithSimilarity(hits, s))
      && (forall h :: h in out ==>
            && h.similarity >= MinSimilarity
            && exists i :: 0 <= i < topK && Kept(distances, indices, topK, i) &&
                 Addressable(chunks, meta, indices[i]) && h == HitAt(chunks, meta, distances, indices, topK, i))
      && (forall i :: 0 <= i < |indices| && Kept(distances, indices, topK, i) ==>
            Addressable(chunks, meta, indices[i]) && HitAt(chunks, meta, distances, indices, topK, i) in out)
  {
    var k := |indices|;
    CollectFails(chunks, meta, distances, indices, topK, k);
    if Collect(chunks, meta, distances, indices, topK, k).Ok? {
      var hits := Collect(chunks, meta, distances, indices, topK, k).value;
      CollectHits(chunks, meta, distances, indices, topK, k);
      SortSorts(hits);
      var sorted := SortBySimilarity(hits);
      assert sorted[..Min(topK, |sorted|)] == sorted;
      forall s ensures WithSimilarity(sorted, s) == WithSimilarity(hits, s) {
        SortIsStable(hits, s);
      }
      forall h | h in sorted
        ensures h in hits
      {
        assert h in multiset(sorted);
      }
      forall h | h in hits
        ensures h in sorted
      {
        assert h in multiset(hits);
      }
    }
  }

  /** Once collection has failed, it stays failed. */
  lemma {:induction false} FailureSticks(chunks: seq<string>, meta: seq<ChunkMeta>, distances: seq<real>, indices: seq<int>, topK: int, k: nat, m: nat)
    requires SearchOutput(distances, indices, topK) && k <= m <= |indices|
    requires Collect(chunks, meta, distances, indices, topK, k).Err?
    ensures Collect(chunks, meta, distances, indices, topK, m) == Collect(chunks, meta, distances, indices, topK, k)
    decreases m - k
  {
    if k < m {
      FailureSticks(chunks, meta, distances, indices, topK, k + 1, m);
    }
  }

  // ----- The retriever -----

  class OptimizedRetriever {
    /** The sentence encoder (`SentenceTransformer.encode` for one text). */
    const encode: string -> Embedding
    /** The stored knowledge-base file and index file. */
    var kbFile: KbFile
    var indexFile: Option<seq<Embedding>>
    /** `text_chunks`, `metadata` and `index`. */
    var textChunks: seq<string>
    var metadata: seq<ChunkMeta>
    var index: Option<seq<Embedding>>

    /** The chunk and metadata lists are parallel, and a stored knowledge base names each key once. */
    ghost predicate Valid()
      reads this
    {
      && |textChunks| == |metadata|
      && (kbFile.Json? ==> DistinctKeys(kbFile.kb))
    }

    function Encodings(chunks: seq<string>): seq<Embedding> {
      seq(|chunks|, i requires 0 <= i < |chunks| => encode(chunks[i]))
    }

    /** Starts with empty lists and no index, creating an empty knowledge base when none exists. */
    constructor (encode: string -> Embedding, kbFile: KbFile, indexFile: Option<seq<Embedding>>)
      requires kbFile.Json? ==> DistinctKeys(kbFile.kb)
      ensures Valid()
      ensures this.encode == encode
      ensures textChunks == [] && metadata == [] && index == None
      ensures this.kbFile == (if kbFile.Missing? then Json([]) else kbFile)
      ensures this.indexFile == indexFile
    {
      this.encode := encode;
      this.kbFile := if kbFile.Missing? then Json([]) else kbFile;
      this.indexFile := indexFile;
      textChunks := [];
      metadata := [];
      index := None;
    }

    /**
     * `load_knowledge_base`: the lists become the flattened knowledge base,
     * replacing what they held. An unreadable file is reset to `{}` and the
     * lists are kept; a missing file raises (`raised`) and changes nothing.
     */
    method LoadKnowledgeBase() returns (raised: bool)
      requires Valid()
      modifies this
      ensures Valid()
      ensures raised <==> old(kbFile).Missing?
      ensures old(kbFile).Missing? ==> unchanged(this)
      ensures old(kbFile).Corrupt? ==>
        kbFile == Json([]) && textChunks == old(textChunks) && metadata == old(metadata)
      ensures old(kbFile).Json? ==>
        kbFile == old(kbFile) &&
        textChunks == FlatChunks(old(kbFile).kb) && metadata == FlatTitles(old(kbFile).kb)
      ensures index == old(index) && indexFile == old(indexFile)
    {
      match kbFile
      case Missing =>
        return true;
      case Corrupt =>
        kbFile := Json([]);
        return false;
      case Json(kb) =>
        var chunks: seq<string> := [];
        var titles: seq<ChunkMeta> := [];
        for p := 0 to |kb|
          invariant chunks == FlatChunks(kb[..p]) && titles == FlatTitles(kb[..p])
          modifies {}
        {
          var title := kb[p].0;
          var items := Items(kb[p].1);
          for j := 0 to |items|
            invariant chunks == FlatChunks(kb[..p]) + items[..j]
            invariant titles == FlatTitles(kb[..p]) + TitleRun(title, j)
            modifies {}
          {
            assert items[..j + 1] == items[..j] + [items[j]];
            assert TitleRun(title, j + 1) == TitleRun(title, j) + [ChunkMeta(title)];
            chunks := chunks + [items[j]];
            titles := titles + [ChunkMeta(title)];
          }
          assert items[..|items|] == items;
          FlatStep(kb, p);
        }
        assert kb[..|kb|] == kb;
        FlatLengths(kb);
        textChunks, metadata := chunks, titles;
        return false;
    }

    /**
     * `load_or_create_index`: an existing index file is loaded as it is, with
     * no check against the chunks; otherwise a new index holds one embedding
     * per chunk, in chunk order, and is saved.
     */
    method LoadOrCreateIndex()
      modifies this
      ensures old(indexFile).Some? ==> index == old(indexFile) && indexFile == old(indexFile)
      ensures old(indexFile).None? ==>
        index == Some(Encodings(textChunks)) && indexFile == index
      ensures index.Some?
      ensures textChunks == old(textChunks) && metadata == old(metadata) && kbFile == old(kbFile)
    {
      if indexFile.Some? {
        index := indexFile;
      } else {
        index := Some(Encodings(textChunks));
        indexFile := index;
      }
    }

    /**
     * `load_or_initialize_knowledge_base`: a non-empty knowledge base is
     * loaded and indexed; an empty one changes nothing; a missing or
     * unreadable file is reset to `{}`.
     */
    method LoadOrInitializeKnowledgeBase() returns (loaded: bool)
      requires Valid()
      modifies this
      ensures Valid()
      ensures loaded <==> old(kbFile).Json? && old(kbFile).kb != []
      ensures old(kbFile) == Json([]) ==> unchanged(this)
      ensures old(kbFile).Missing? || old(kbFile).Corrupt? ==>
        kbFile == Json([]) && textChunks == old(textChunks) && metadata == old(metadata) &&
        index == old(index) && indexFile == old(indexFile)
      ensures loaded ==>
        kbFile == old(kbFile) &&
        textChunks == FlatChunks(old(kbFile).kb) && metadata == FlatTitles(old(kbFile).kb) &&
        index == (if old(indexFile).Some? then old(indexFile) else Some(Encodings(textChunks))) &&
        indexFile == index
    {
      if !kbFile.Json? {
        kbFile := Json([]);
        return false;
      }
      if kbFile.kb == [] {
        return false;
      }
      var _ := LoadKnowledgeBase();
      LoadOrCreateIndex();
      return true;
    }

    /**
     * `search_and_update`: both searches run on the project title, or on the
     * query when there is none; their results are merged into the knowledge
     * base, which is then reloaded and indexed. A search that raises or a
     * knowledge base that cannot be read gives `false` and changes nothing.
     * An index file that already exists is loaded again, so the new chunks
     * are not indexed.
     */
    method SearchAndUpdate(query: string, projectTitle: Option<string>,
                           arxiv: string -> SearchOutcome, springer: string -> SearchOutcome)
      returns (updated: bool)
      requires Valid()
      modifies this
      ensures Valid()
      ensures var q := if Given(projectTitle) then projectTitle.value else query;
        updated <==> arxiv(q).Returned? && springer(q).Returned? && old(kbFile).Json?
      ensures !updated ==> unchanged(this)
      ensures updated ==>
        var q := if Given(projectTitle) then projectTitle.value else query;
        var a := arxiv(q);
        var s := springer(q);
        var kb := Merged(Merged(old(kbFile).kb, "arxiv", Zip(a.chunks, a.citations)),
                         "springer", Zip(s.chunks, s.citations));
        && kbFile == Json(kb)
        && textChunks == FlatChunks(kb) && metadata == FlatTitles(kb)
        && index == (if old(indexFile).Some? then old(indexFile) else Some(Encodings(textChunks)))
        && indexFile == index
    {
      var searchQuery := if Given(projectTitle) then projectTitle.value else query;
      var a := arxiv(searchQuery);
      if a.Raised? {
        return false;
      }
      var s := springer(searchQuery);
      if s.Raised? {
        return false;
      }
      if !kbFile.Json? {
        return false;
      }
      var kb := MergeResults(kbFile.kb, "arxiv", a.chunks, a.citations);
      MergeKeepsDistinct(kbFile.kb, "arxiv", Zip(a.chunks, a.citations));
      var kb1 := kb;
      kb := MergeResults(kb, "springer", s.chunks, s.citations);
      MergeKeepsDistinct(kb1, "springer", Zip(s.chunks, s.citations));
      kbFile := Json(kb);
      var _ := LoadKnowledgeBase();
      LoadOrCreateIndex();
      return true;
    }

    /**
     * `retrieve_relevant_chunks` for the neighbours FAISS found for the
     * query's embedding.
     */
    method RetrieveRelevantChunks(distances: seq<real>, indices: seq<int>, topK: int)
      returns (r: Result<seq<Hit>, RetrieveError>)
      requires SearchOutput(distances, indices, topK)
      ensures index.None? ==> r == Err(IndexNotReady)
      ensures index.Some? ==> r == Ranked(textChunks, metadata, distances, indices, topK)
    {
      if index.None? {
        return Err(IndexNotReady);
      }
      var results: seq<Hit> := [];
      for i := 0 to |indices|
        invariant Collect(textChunks, metadata, distances, indices, topK, i) == Ok(results)
      {
        var idx := indices[i];
        if idx == -1 || i >= topK {
          continue;
        }
        var similarity := Similarity(distances[i]);
        if similarity < MinSimilarity {
          continue;
        }
        if !Addressable(textChunks, metadata, idx) {
          FailureSticks(textChunks, metadata, distances, indices, topK, i + 1, |indices|);
          return Err(IndexOutOfRange);
        }
        results := results + [Hit(textChunks[idx], metadata[idx], similarity)];
      }
      var sorted := SortBySimilarity(results);
      return Ok(sorted[..Min(topK, |sorted|)]);
    }
  }
}
