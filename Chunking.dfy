/**
 * The chunker of `backend/pdf_processing/chunking.py`: extracted text is split
 * into words, and the words are packed greedily, in order, into chunks whose
 * space-joined length stays within `chunkSize`.
 */
module Chunking {
  import opened Text

  /** The words of every chunk, chunk by chunk. */
  function WordsOfEach(chunks: seq<string>): (ws: seq<seq<string>>)
    ensures |ws| == |chunks|
  {
    seq(|chunks|, i requires 0 <= i < |chunks| => Words(chunks[i]))
  }

  /** Every group of words joined by single spaces, group by group. */
  function JoinEach(groups: seq<seq<string>>): (cs: seq<string>)
    ensures |cs| == |groups|
  {
    seq(|groups|, i requires 0 <= i < |groups| => Join(groups[i]))
  }

  /** All groups laid end to end. */
  function Concat(groups: seq<seq<string>>): seq<string> {
    if groups == [] then [] else Concat(groups[..|groups| - 1]) + groups[|groups| - 1]
  }

  /**
   * The packing test of the loop: the letters already in `group`, plus the new
   * word, plus one separator per word already in `group`.
   */
  function Cost(group: seq<string>, word: string): int {
    SumLen(group) + |word| + |group|
  }

  /** A group of two or more words joins to at most `chunkSize` characters. */
  predicate Fits(group: seq<string>, chunkSize: int) {
    |group| >= 2 ==> SumLen(group) + |group| - 1 <= chunkSize
  }

  /**
   * How long a chunk would become with `word` added after it: a flushed empty
   * chunk stands for an empty group, which takes the word without a separator.
   */
  function Extended(chunk: string, word: string): int {
    if chunk == "" then |word| else |chunk| + 1 + |word|
  }

  // ----- What chunk_text promises -----

  /** No word is lost, split or reordered, and there are chunks exactly when there are words. */
  ghost predicate Lossless(chunks: seq<string>, words: seq<string>) {
    && Concat(WordsOfEach(chunks)) == words
    && (chunks == [] <==> words == [])
  }

  /** Every chunk is its own words joined by single spaces. */
  ghost predicate SingleSpaced(chunks: seq<string>) {
    forall i :: 0 <= i < |chunks| ==> chunks[i] == Join(Words(chunks[i]))
  }

  /** Only a chunk of a single word (or none) can be longer than `chunkSize`. */
  ghost predicate Bounded(chunks: seq<string>, chunkSize: int) {
    forall i :: 0 <= i < |chunks| && |Words(chunks[i])| >= 2 ==> |chunks[i]| <= chunkSize
  }

  /** Only the first chunk can be empty, and it is exactly when the first word alone is too long. */
  ghost predicate EmptyOnlyFirst(chunks: seq<string>, words: seq<string>, chunkSize: int) {
    && (forall i :: 0 < i < |chunks| ==> chunks[i] != "")
    && ((|chunks| > 0 && chunks[0] == "") <==> (words != [] && |words[0]| > chunkSize))
  }

  /** Each chunk is full: the next chunk's first word would not have fitted after it. */
  ghost predicate Greedy(chunks: seq<string>, chunkSize: int) {
    forall i, j :: 0 <= i && j == i + 1 && j < |chunks| ==>
      Words(chunks[j]) != [] && Extended(chunks[i], Words(chunks[j])[0]) > chunkSize
  }

  ghost predicate Chunked(chunks: seq<string>, words: seq<string>, chunkSize: int) {
    && Lossless(chunks, words)
    && SingleSpaced(chunks)
    && Bounded(chunks, chunkSize)
    && EmptyOnlyFirst(chunks, words, chunkSize)
    && Greedy(chunks, chunkSize)
  }

  // ----- The packing loop's invariant -----

  /**
   * What the loop keeps true of the groups of words it has flushed: each is
   * made of words and fits, only the first may be empty, and each is full in
   * that the next group's first word would not have fitted into it.
   */
  ghost predicate Packing(groups: seq<seq<string>>, chunkSize: int) {
    && (forall i :: 0 <= i < |groups| ==> AllWords(groups[i]) && Fits(groups[i], chunkSize))
    && (forall i :: 0 < i < |groups| ==> groups[i] != [])
    && (forall i :: 0 <= i < |groups| - 1 ==> Cost(groups[i], groups[i + 1][0]) > chunkSize)
  }

  /**
   * The state of the loop after `k` words: the chunks are the flushed groups
   * joined; the flushed groups and the open group `current` hold exactly the
   * first `k` words; `current` fits, and is empty only before the first word;
   * the flushed groups keep `Packing`, the last of them is full with respect to
   * `current`, and the first is empty exactly when the first word is too long.
   */
  ghost predicate LoopState(words: seq<string>, k: nat, groups: seq<seq<string>>,
                            current: seq<string>, chunks: seq<string>, chunkSize: int)
  {
    && k <= |words|
    && AllWords(words)
    && chunks == JoinEach(groups)
    && Concat(groups) + current == words[..k]
    && AllWords(current)
    && Fits(current, chunkSize)
    && Packing(groups, chunkSize)
    && (k == 0 <==> current == [])
    && (k == 0 ==> groups == [])
    && ((|groups| > 0 && groups[0] == []) <==> (k > 0 && |words[0]| > chunkSize))
    && (|groups| > 0 ==> current != [] && Cost(groups[|groups| - 1], current[0]) > chunkSize)
  }

  /** Closing a group that fits, after a full one, keeps `Packing`. */
  lemma PackingAppend(groups: seq<seq<string>>, g: seq<string>, chunkSize: int)
    requires Packing(groups, chunkSize)
    requires AllWords(g) && Fits(g, chunkSize)
    requires groups != [] ==> g != [] && Cost(groups[|groups| - 1], g[0]) > chunkSize
    ensures Packing(groups + [g], chunkSize)
  {
    var gs := groups + [g];
    forall i | 0 <= i < |gs| - 1
      ensures Cost(gs[i], gs[i + 1][0]) > chunkSize
    {
      if i == |groups| - 1 {
        assert gs[i + 1] == g;
      }
    }
  }

  lemma GroupAppend(groups: seq<seq<string>>, g: seq<string>)
    ensures Concat(groups + [g]) == Concat(groups) + g
    ensures JoinEach(groups + [g]) == JoinEach(groups) + [Join(g)]
  {
    assert (groups + [g])[..|groups|] == groups;
  }

  /** A word that fits joins the open group. */
  lemma TakeWord(words: seq<string>, k: nat, groups: seq<seq<string>>, current: seq<string>,
                 chunks: seq<string>, chunkSize: int)
    requires LoopState(words, k, groups, current, chunks, chunkSize)
    requires k < |words| && Cost(current, words[k]) <= chunkSize
    ensures LoopState(words, k + 1, groups, current + [words[k]], chunks, chunkSize)
  {
    assert words[..k + 1] == words[..k] + [words[k]];
    SumLenAppend(current, [words[k]]);
  }

  /** A word that does not fit closes the open group as a chunk and opens a new group. */
  lemma FlushGroup(words: seq<string>, k: nat, groups: seq<seq<string>>, current: seq<string>,
                   chunks: seq<string>, chunkSize: int)
    requires LoopState(words, k, groups, current, chunks, chunkSize)
    requires k < |words| && Cost(current, words[k]) > chunkSize
    ensures LoopState(words, k + 1, groups + [current], [words[k]], chunks + [Join(current)], chunkSize)
  {
    assert words[..k + 1] == words[..k] + [words[k]];
    GroupAppend(groups, current);
    PackingAppend(groups, current, chunkSize);
  }

  /** After the last word, closing a non-empty open group leaves groups that hold exactly the words. */
  lemma CloseLast(words: seq<string>, groups: seq<seq<string>>, current: seq<string>,
                  chunks: seq<string>, chunkSize: int)
    requires LoopState(words, |words|, groups, current, chunks, chunkSize)
    ensures var final := if current != [] then groups + [current] else groups;
      && (if current != [] then chunks + [Join(current)] else chunks) == JoinEach(final)
      && Concat(final) == words
      && Packing(final, chunkSize)
      && (final == [] <==> words == [])
      && ((|final| > 0 && final[0] == []) <==> (words != [] && |words[0]| > chunkSize))
  {
    assert words[..|words|] == words;
    if current != [] {
      GroupAppend(groups, current);
      PackingAppend(groups, current, chunkSize);
    }
  }

  // ----- From groups back to chunks -----

  lemma JoinedGroup(g: seq<string>)
    requires AllWords(g)
    ensures Words(Join(g)) == g
    ensures g == [] <==> Join(g) == ""
    ensures g != [] ==> |Join(g)| == SumLen(g) + |g| - 1
  {
    WordsOfJoin(g);
    if g != [] {
      JoinLength(g);
      SumLenAppend([g[0]], g[1..]);
      assert [g[0]] + g[1..] == g;
    }
  }

  /** The words of each joined group are that group; an empty chunk is an empty group. */
  lemma ChunkWordsAreGroups(groups: seq<seq<string>>)
    requires forall i :: 0 <= i < |groups| ==> AllWords(groups[i])
    ensures WordsOfEach(JoinEach(groups)) == groups
    ensures forall i :: 0 <= i < |groups| ==> (JoinEach(groups)[i] == "" <==> groups[i] == [])
    ensures forall i :: 0 <= i < |groups| && groups[i] != [] ==>
      |JoinEach(groups)[i]| == SumLen(groups[i]) + |groups[i]| - 1
  {
    forall i | 0 <= i < |groups|
      ensures Words(Join(groups[i])) == groups[i]
      ensures groups[i] == [] <==> Join(groups[i]) == ""
      ensures groups[i] != [] ==> |Join(groups[i])| == SumLen(groups[i]) + |groups[i]| - 1
    {
      JoinedGroup(groups[i]);
    }
  }

  lemma BoundedGroups(groups: seq<seq<string>>, chunkSize: int)
    requires Packing(groups, chunkSize)
    ensures Bounded(JoinEach(groups), chunkSize)
  {
    ChunkWordsAreGroups(groups);
    var chunks := JoinEach(groups);
    forall i | 0 <= i < |chunks| && |Words(chunks[i])| >= 2
      ensures |chunks[i]| <= chunkSize
    {
      assert Words(chunks[i]) == WordsOfEach(chunks)[i] == groups[i];
      assert Fits(groups[i], chunkSize);
    }
  }

  lemma GreedyGroups(groups: seq<seq<string>>, chunkSize: int)
    requires Packing(groups, chunkSize)
    ensures Greedy(JoinEach(groups), chunkSize)
  {
    ChunkWordsAreGroups(groups);
    var chunks := JoinEach(groups);
    forall i, j | 0 <= i && j == i + 1 && j < |chunks|
      ensures Words(chunks[j]) != [] && Extended(chunks[i], Words(chunks[j])[0]) > chunkSize
    {
      assert Words(chunks[j]) == WordsOfEach(chunks)[j] == groups[j];
      assert Cost(groups[i], groups[j][0]) > chunkSize;
    }
  }

  /** The facts the packing loop establishes about its groups of words, read back on the chunks. */
  lemma ChunksOfGroups(groups: seq<seq<string>>, words: seq<string>, chunkSize: int)
    requires Concat(groups) == words
    requires Packing(groups, chunkSize)
    requires groups == [] <==> words == []
    requires (|groups| > 0 && groups[0] == []) <==> (words != [] && |words[0]| > chunkSize)
    ensures Chunked(JoinEach(groups), words, chunkSize)
  {
    var chunks := JoinEach(groups);
    ChunkWordsAreGroups(groups);
    assert Lossless(chunks, words);
    assert SingleSpaced(chunks) by {
      forall i | 0 <= i < |chunks|
        ensures chunks[i] == Join(Words(chunks[i]))
      {
        assert Words(chunks[i]) == WordsOfEach(chunks)[i];
      }
    }
    BoundedGroups(groups, chunkSize);
    assert EmptyOnlyFirst(chunks, words, chunkSize);
    GreedyGroups(groups, chunkSize);
  }

  /**
   * `chunk_text(text, chunk_size)`: splits `text` on whitespace and packs the
   * words greedily; a word that does not fit after the open chunk flushes it,
   * even when the open chunk is still empty.
   */
  method ChunkText(text: string, chunkSize: int) returns (chunks: seq<string>)
    ensures Chunked(chunks, Words(text), chunkSize)
  {
    var words := Words(text);
    chunks := [];
    var current: seq<string> := [];
    ghost var groups: seq<seq<string>> := [];
    for k := 0 to |words|
      invariant LoopState(words, k, groups, current, chunks, chunkSize)
    {
      var word := words[k];
      if Cost(current, word) <= chunkSize {
        TakeWord(words, k, groups, current, chunks, chunkSize);
        current := current + [word];
      } else {
        FlushGroup(words, k, groups, current, chunks, chunkSize);
        chunks := chunks + [Join(current)];
        groups := groups + [current];
        current := [word];
      }
    }
    CloseLast(words, groups, current, chunks, chunkSize);
    if current != [] {
      chunks := chunks + [Join(current)];
      groups := groups + [current];
    }
    ChunksOfGroups(groups, words, chunkSize);
  }

  /** Empty or whitespace-only text gives no chunks at all. */
  lemma BlankTextNoChunks(text: string, chunks: seq<string>, chunkSize: int)
    requires forall j :: 0 <= j < |text| ==> IsSpace(text[j])
    requires Chunked(chunks, Words(text), chunkSize)
    ensures chunks == []
  {
    WordsEmptyIffBlank(text);
  }
}
