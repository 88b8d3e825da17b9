/**
 * The conversation history of `backend/history/history_manager.py`: a JSON
 * file holding `{"completions": [...]}`, read with self-healing recovery,
 * extended by one entry per user input or model response, and summarised by
 * word statistics. The file is a stored value held in a field; timestamps
 * and the user settings are parameters.
 */
module History {
  import opened Wrappers
  import opened Text

  /** The "model" object of a model entry. */
  datatype ModelInfo = ModelInfo(path: string, name: string, systemPrompt: string)

  /**
   * A completion entry, told apart by its "type": a user input, a model
   * response, or an entry of any other type (which the statistics ignore).
   */
  datatype Entry =
    | UserEntry(timeStamp: string, userInput: string)
    | ModelEntry(content: string, timestamp: string, model: ModelInfo)
    | OtherEntry

  /** The history object; `None` is a missing "completions" key. */
  datatype HistoryDoc = HistoryDoc(completions: Option<seq<Entry>>)

  /** The history file: absent, whitespace only, not valid JSON, or a history object. */
  datatype HistoryFile = Absent | Blank | Malformed | Stored(doc: HistoryDoc)

  /** What `initialize_history` writes and returns. */
  const EmptyHistory: HistoryDoc := HistoryDoc(Some([]))

  /** What `load_history` returns for a file. */
  function Loaded(file: HistoryFile): (doc: HistoryDoc)
    ensures file.Stored? ==> doc == file.doc
    ensures !file.Stored? ==> doc == EmptyHistory
  {
    if file.Stored? then file.doc else EmptyHistory
  }

  /** The entries of a history, none when the key is missing (`history.get("completions", [])`). */
  function Entries(doc: HistoryDoc): seq<Entry> {
    doc.completions.GetOr([])
  }

  /** A model response: a dict with an optional "choices" list, or any other value, shown with `str`. */
  datatype Choice = Choice(text: Option<string>)
  datatype ModelResponse = DictResponse(choices: Option<seq<Choice>>) | OtherResponse(repr: string)

  /**
   * The text stored for a response: the first choice's "text" ("" when
   * absent, and a missing "choices" counts as one empty choice), or `str` of
   * a non-dict response; `None` when "choices" is an empty list (IndexError).
   */
  function ResponseText(response: ModelResponse): (text: Option<string>)
    ensures text.None? <==> response.DictResponse? && response.choices == Some([])
    ensures response.OtherResponse? ==> text == Some(response.repr)
    ensures response.DictResponse? && response.choices.None? ==> text == Some("")
    ensures response.DictResponse? && response.choices.Some? && response.choices.value != [] ==>
      text == Some(response.choices.value[0].text.GetOr(""))
  {
    match response
    case OtherResponse(repr) => Some(repr)
    case DictResponse(choices) =>
      var list := choices.GetOr([Choice(None)]);
      if list == [] then None else Some(list[0].text.GetOr(""))
  }

  /**
   * The model description taken from the settings: the path, its base name
   * (the longest suffix without '/'), and the system prompt.
   */
  function ModelOf(settings: map<string, string>): (info: ModelInfo)
    ensures info.path == Lookup(settings, "model_path", "")
    ensures |info.name| <= |info.path| && info.name == info.path[|info.path| - |info.name|..] && '/' !in info.name
    ensures |info.name| < |info.path| ==> info.path[|info.path| - |info.name| - 1] == '/'
    ensures info.systemPrompt == Lookup(settings, "system_prompt", "")
  {
    var path := Lookup(settings, "model_path", "");
    var name := Basename(path);
    ModelInfo(path, name, Lookup(settings, "system_prompt", ""))
  }

  // ----- Statistics -----

  function UserWordsOf(entry: Entry): nat {
    if entry.UserEntry? then |Words(entry.userInput)| else 0
  }

  function ModelWordsOf(entry: Entry): nat {
    if entry.ModelEntry? then |Words(entry.content)| else 0
  }

  /** Whitespace-separated words over the inputs of the user entries. */
  function UserWords(entries: seq<Entry>): nat {
    if entries == [] then 0
    else UserWords(entries[..|entries| - 1]) + UserWordsOf(entries[|entries| - 1])
  }

  /** Whitespace-separated words over the contents of the model entries. */
  function ModelWords(entries: seq<Entry>): nat {
    if entries == [] then 0
    else ModelWords(entries[..|entries| - 1]) + ModelWordsOf(entries[|entries| - 1])
  }

  /** `round` to two decimals is not modelled: percentages are exact. */
  function Percentage(part: nat, total: nat): real {
    if total > 0 then part as real / total as real * 100.0 else 0.0
  }

  /** Two shares of a positive total add up to 100 and each lies between 0 and 100. */
  lemma SharesAddUp(user: nat, model: nat)
    ensures user + model > 0 ==> Percentage(user, user + model) + Percentage(model, user + model) == 100.0
    ensures 0.0 <= Percentage(user, user + model) <= 100.0
    ensures 0.0 <= Percentage(model, user + model) <= 100.0
  {
    if user + model > 0 {
      var t := (user + model) as real;
      assert user as real / t + model as real / t == 1.0;
      assert user as real / t <= 1.0 && model as real / t <= 1.0;
    }
  }

  datatype Statistics = Statistics(
    userWords: nat,
    modelWords: nat,
    userPercentage: real,
    modelPercentage: real,
    totalExchanges: nat)

  /**
   * `calculate_content_statistics` on a list of entries: the two word
   * counts, their shares of the total (both 0 when there are no words,
   * otherwise adding up to 100), and one exchange per two entries of any type.
   */
  function ContentStatistics(entries: seq<Entry>): (s: Statistics)
    ensures s.userWords == UserWords(entries) && s.modelWords == ModelWords(entries)
    ensures s.userWords + s.modelWords == 0 ==> s.userPercentage == 0.0 && s.modelPercentage == 0.0
    ensures s.userWords + s.modelWords > 0 ==>
      && s.userPercentage == s.userWords as real / (s.userWords + s.modelWords) as real * 100.0
      && s.modelPercentage == s.modelWords as real / (s.userWords + s.modelWords) as real * 100.0
    ensures s.userWords + s.modelWords > 0 ==> s.userPercentage + s.modelPercentage == 100.0
    ensures 0.0 <= s.userPercentage <= 100.0 && 0.0 <= s.modelPercentage <= 100.0
    ensures 2 * s.totalExchanges <= |entries| < 2 * s.totalExchanges + 2
  {
    var user := UserWords(entries);
    var model := ModelWords(entries);
    var total := user + model;
    SharesAddUp(user, model);
    Statistics(user, model, Percentage(user, total), Percentage(model, total), |entries| / 2)
  }

  /** The word counts of a concatenation add up. */
  lemma {:induction false} WordsOfAppend(a: seq<Entry>, b: seq<Entry>)
    ensures UserWords(a + b) == UserWords(a) + UserWords(b)
    ensures ModelWords(a + b) == ModelWords(a) + ModelWords(b)
    decreases |b|
  {
    if b == [] {
      assert a + b == a;
    } else {
      var ab := a + b;
      assert ab[..|ab| - 1] == a + b[..|b| - 1];
      assert ab[|ab| - 1] == b[|b| - 1];
      WordsOfAppend(a, b[..|b| - 1]);
    }
  }

  /** The statistics' word counts only depend on the multiset of entries: order is irrelevant. */
  lemma {:induction false} WordsOfSwap(a: seq<Entry>, b: seq<Entry>)
    ensures ContentStatistics(a + b).userWords == ContentStatistics(b + a).userWords
    ensures ContentStatistics(a + b).modelWords == ContentStatistics(b + a).modelWords
  {
    WordsOfAppend(a, b);
    WordsOfAppend(b, a);
  }

  /** A user entry adds the words of its input to the user count and nothing to the model count. */
  lemma UserEntryCounts(entries: seq<Entry>, timeStamp: string, input: string)
    ensures ContentStatistics(entries + [UserEntry(timeStamp, input)]).userWords ==
      ContentStatistics(entries).userWords + |Words(input)|
    ensures ContentStatistics(entries + [UserEntry(timeStamp, input)]).modelWords ==
      ContentStatistics(entries).modelWords
  {
    assert (entries + [UserEntry(timeStamp, input)])[..|entries|] == entries;
  }

  /** A blank message adds no words. */
  lemma BlankAddsNoWords(entries: seq<Entry>, timeStamp: string, input: string)
    requires forall i :: 0 <= i < |input| ==> IsSpace(input[i])
    ensures ContentStatistics(entries + [UserEntry(timeStamp, input)]).userWords ==
      ContentStatistics(entries).userWords
  {
    UserEntryCounts(entries, timeStamp, input);
    WordsEmptyIffBlank(input);
  }

  /** Entries of another type count for nothing but exchanges. */
  lemma OtherEntriesIgnored(entries: seq<Entry>)
    requires forall i :: 0 <= i < |entries| ==> entries[i].OtherEntry?
    ensures ContentStatistics(entries).userWords == 0 && ContentStatistics(entries).modelWords == 0
  {
    if entries != [] {
      OtherEntriesIgnored(entries[..|entries| - 1]);
    }
  }

  /** Proof step for `StatisticsExample`: the user input of the worked example has three words. */
  lemma ThreeWords()
    ensures Words("a b c") == ["a", "b", "c"]
  {
    assert Join(["a", "b", "c"]) == "a b c";
    assert IsWord("a") && IsWord("b") && IsWord("c");
    WordsOfJoin(["a", "b", "c"]);
  }

  /** Proof step for `StatisticsExample`: the model content of the worked example has two words. */
  lemma TwoWords()
    ensures Words("d e") == ["d", "e"]
  {
    assert Join(["d", "e"]) == "d e";
    assert IsWord("d") && IsWord("e");
    WordsOfJoin(["d", "e"]);
  }

  /** The entries of the worked example: one user input, one model response. */
  function ExampleEntries(): seq<Entry> {
    [UserEntry("t1", "a b c"), ModelEntry("d e", "t2", ModelInfo("", "", ""))]
  }

  /** Proof step for `StatisticsExample`: the word counts of the worked example. */
  lemma ExampleCounts()
    ensures UserWords(ExampleEntries()) == 3 && ModelWords(ExampleEntries()) == 2
  {
    ThreeWords();
    TwoWords();
    var entries := ExampleEntries();
    assert entries[..1] == [entries[0]];
    assert entries[..1][..0] == [];
  }

  /** A user input of three words and a response of two give 3, 2, 60%, 40% and one exchange. */
  lemma StatisticsExample()
    ensures ContentStatistics(ExampleEntries()) == Statistics(3, 2, 60.0, 40.0, 1)
  {
    ExampleCounts();
    assert Percentage(3, 5) == 60.0;
    assert Percentage(2, 5) == 40.0;
  }

  // ----- The history file -----

  class HistoryStore {
    var file: HistoryFile

    constructor (file: HistoryFile)
      ensures this.file == file
    {
      this.file := file;
    }

    /**
     * `load_history`: a stored history is returned as it is; a missing,
     * blank or malformed file is replaced by, and yields, `{"completions": []}`.
     */
    method LoadHistory() returns (doc: HistoryDoc)
      modifies this
      ensures doc == Loaded(old(file))
      ensures file == Stored(doc)
    {
      if file.Stored? {
        return file.doc;
      }
      file := Stored(EmptyHistory);
      return EmptyHistory;
    }

    /**
     * `add_user_input`: one user entry is appended after the loaded entries,
     * creating "completions" when it is missing, and the history is saved.
     */
    method AddUserInput(inputText: string, timeStamp: string)
      modifies this
      ensures file == Stored(HistoryDoc(Some(Entries(Loaded(old(file))) + [UserEntry(timeStamp, inputText)])))
    {
      var history := LoadHistory();
      var entry := UserEntry(timeStamp, inputText);
      var completions := Entries(history);
      file := Stored(HistoryDoc(Some(completions + [entry])));
    }

    /**
     * `add_model_response`: one model entry, with the response text and the
     * model named by the settings, is appended and the history saved. When
     * "choices" is an empty list nothing is appended (`raised`); the history
     * file was already loaded, and repaired if it had to be.
     */
    method AddModelResponse(response: ModelResponse, timestamp: string, settings: map<string, string>)
      returns (raised: bool)
      modifies this
      ensures raised <==> ResponseText(response).None?
      ensures raised ==> file == Stored(Loaded(old(file)))
      ensures !raised ==>
        file == Stored(HistoryDoc(Some(Entries(Loaded(old(file))) +
          [ModelEntry(ResponseText(response).value, timestamp, ModelOf(settings))])))
    {
      var history := LoadHistory();
      var text := ResponseText(response);
      if text.None? {
        return true;
      }
      var entry := ModelEntry(text.value, timestamp, ModelOf(settings));
      var completions := Entries(history);
      file := Stored(HistoryDoc(Some(completions + [entry])));
      return false;
    }

    /** `calculate_content_statistics`, after loading (and possibly repairing) the history. */
    method CalculateContentStatistics() returns (stats: Statistics)
      modifies this
      ensures stats == ContentStatistics(Entries(Loaded(old(file))))
      ensures file == Stored(Loaded(old(file)))
    {
      var history := LoadHistory();
      stats := ContentStatistics(Entries(history));
    }
  }
}
