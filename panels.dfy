/**
 * The side panels' own logic: the viewport's address correction and
 * bookmark star, the search panel, the summarizer with its stored history,
 * and the theme generator's apply-or-error step. Each handler is modelled
 * as one atomic step from the click to the state after the awaited call
 * resolved; the loading flags it raises and lowers in between are not kept.
 */
module Panels {
  import opened Maybe
  import opened Text
  import opened Json
  import opened Lists
  import opened Storage
  import opened Types
  import opened Gemini

  // ---------------------------------------------------------------------
  // Viewport: address correction and the bookmark star
  // ---------------------------------------------------------------------

  /** What `/^https?:\/\//i` accepts: the text starts with `http://` or `https://`, in any letter case. */
  predicate HasScheme(s: string) {
    StartsWithIgnoringCase(s, "http://") || StartsWithIgnoringCase(s, "https://")
  }

  /**
   * `handleLoadUrl`: nothing to load for an empty field; otherwise the
   * trimmed text, with `https://` put in front unless it already names a
   * scheme. The emptiness test comes before trimming, so a field holding
   * only spaces still loads.
   */
  function CorrectUrl(input: string): (r: Option<string>)
    ensures r.None? <==> input == ""
    ensures r.Some? ==> HasScheme(r.value) && Trimmed(r.value)
    ensures r.Some? && HasScheme(Trim(input)) ==> r.value == Trim(input)
    ensures r.Some? && !HasScheme(Trim(input)) ==> r.value == "https://" + Trim(input)
  {
    if input == "" then None
    else
      var trimmed := Trim(input);
      if HasScheme(trimmed) then Some(trimmed)
      else
        var corrected := "https://" + trimmed;
        StartsWithIgnoringCaseOfPrefix("https://", trimmed);
        assert corrected[0] == 'h';
        assert corrected[|corrected| - 1] == if trimmed == [] then '/' else trimmed[|trimmed| - 1];
        Some(corrected)
  }

  /** Loading the corrected address again changes nothing. */
  lemma CorrectUrlIdempotent(input: string)
    requires input != ""
    ensures CorrectUrl(CorrectUrl(input).value) == CorrectUrl(input)
  {
    var once := CorrectUrl(input).value;
    assert once != "" by {
      assert StartsWithIgnoringCase(once, "http://") || StartsWithIgnoringCase(once, "https://");
    }
  }

  /** A field holding only whitespace is not empty, so it loads the bare scheme. */
  lemma WhitespaceOnlyLoadsBareScheme(input: string)
    requires input != "" && AllWhitespace(input)
    ensures CorrectUrl(input) == Some("https://")
  {
    assert Trim(input) == [];
    assert !HasScheme([]);
    assert "https://" + [] == "https://";
  }

  /** An address typed with its scheme in capitals is kept as typed. */
  lemma UpperCaseSchemeIsKept()
    ensures CorrectUrl("HTTP://a") == Some("HTTP://a")
  {
    assert Trimmed("HTTP://a");
    assert StartsWithIgnoringCase("HTTP://a", "http://");
  }

  /** `bookmarks.some(b => b.url === url)`. */
  function IsBookmarked(bookmarks: seq<Bookmark>, url: string): (r: bool)
    ensures r <==> exists i :: 0 <= i < |bookmarks| && bookmarks[i].url == url
  {
    if |bookmarks| == 0 then false
    else if bookmarks[0].url == url then true
    else
      var rest := IsBookmarked(bookmarks[1..], url);
      assert forall i :: 0 < i < |bookmarks| ==> bookmarks[i] == bookmarks[1..][i - 1];
      rest
  }

  // ---------------------------------------------------------------------
  // Search panel
  // ---------------------------------------------------------------------

  /** The search panel's query field and the last answer shown. */
  class SearchPanel {
    var prompt: string
    var response: string

    constructor ()
      ensures prompt == "" && response == ""
    {
      prompt := "";
      response := "";
    }

    method SetPrompt(p: string)
      modifies this
      ensures prompt == p && response == old(response)
    {
      prompt := p;
    }

    /** `handleSearch`: an empty query does nothing; otherwise the service's reply is shown. */
    method Search(sessionKey: string, b: Backend) returns (sent: Option<Request>)
      modifies this
      ensures prompt == old(prompt)
      ensures old(prompt) == "" ==> response == old(response) && sent.None?
      ensures old(prompt) != "" ==> Call(response, sent) == SmartSearch(prompt, sessionKey, b)
    {
      if prompt == "" {
        return None;
      }
      response := "";
      var result := SmartSearch(prompt, sessionKey, b);
      response := result.value;
      sent := result.sent;
    }
  }

  // ---------------------------------------------------------------------
  // Summarizer: what is recorded, and the stored history
  // ---------------------------------------------------------------------

  datatype SummaryItem = SummaryItem(id: string, text: string, summary: string, timestamp: nat)

  const SummaryHistoryKey := "summarizer-history"
  const SummaryHistoryCap: nat := 50

  /** Output worth keeping: not marked as a failure, and not the "no text" sentinel once trimmed. */
  predicate IsGenuineSummary(result: string)
    ensures StartsWith(result, ErrorPrefix) ==> !IsGenuineSummary(result)
    ensures result == NoTextMessage ==> !IsGenuineSummary(result)
  {
    !StartsWith(result, ErrorPrefix) && Trim(result) != NoTextMessage
  }

  /** The "no text" sentinel is not recorded however much whitespace surrounds it. */
  lemma PaddedSentinelIsNotGenuine(pre: string, post: string)
    requires AllWhitespace(pre) && AllWhitespace(post)
    ensures !IsGenuineSummary(pre + NoTextMessage + post)
  {
    TrimRemovesPadding(pre, NoTextMessage, post);
  }

  /**
   * Only real service answers are recorded: a result is genuine exactly when
   * a request was sent, the service answered, and the answer itself is
   * genuine. No fixed failure string and no sentinel gets into the history.
   */
  lemma GenuineExactlyWhenAnswered(text: string, sessionKey: string, b: Backend)
    ensures var c := SummarizeText(text, sessionKey, b);
            IsGenuineSummary(c.value) <==>
              c.sent.Some? && b.service(c.sent.value).Answer? && IsGenuineSummary(b.service(c.sent.value).text)
  {
    FailureStringsAreMarked();
  }

  /** `sum-` and the creation time in milliseconds. */
  function SummaryId(now: nat): (r: string)
    ensures StartsWith(r, "sum-") && IsDecimal(r[4..]) && DecimalValue(r[4..]) == now
    ensures |r| > 5 ==> r[4] != '0'
  {
    NatToDecimalRoundTrip(now);
    assert ("sum-" + NatToDecimal(now))[4..] == NatToDecimal(now);
    "sum-" + NatToDecimal(now)
  }

  function EncodeSummaryItem(item: SummaryItem): Json {
    JObject(map["id" := JString(item.id), "text" := JString(item.text),
                "summary" := JString(item.summary), "timestamp" := JNumber(item.timestamp as real)])
  }

  /** A stored record with three string members and a whole, non-negative timestamp. */
  function DecodeSummaryItem(v: Json): (r: Option<SummaryItem>)
    ensures r.Some? ==> Member(v, "timestamp") == Found(JNumber(r.value.timestamp as real))
    ensures r.Some? ==> StringMember(v, "summary") == Some(r.value.summary)
  {
    match (StringMember(v, "id"), StringMember(v, "text"), StringMember(v, "summary"), Member(v, "timestamp"))
    case (Some(id), Some(text), Some(summary), Found(JNumber(t))) =>
      if 0.0 <= t && t.Floor as real == t then Some(SummaryItem(id, text, summary, t.Floor)) else None
    case _ => None
  }

  lemma SummaryItemRoundTrip(item: SummaryItem)
    ensures Storable(EncodeSummaryItem(item))
    ensures DecodeSummaryItem(EncodeSummaryItem(item)) == Some(item)
  {
  }

  function EncodeSummaries(items: seq<SummaryItem>): Json {
    JArray(EncodeArray(items, EncodeSummaryItem))
  }

  function DecodeSummaries(v: Json): (r: Option<seq<SummaryItem>>)
    ensures r.Some? ==> v.JArray? && |r.value| == |v.items|
  {
    match v
    case JArray(items) => DecodeArray(items, DecodeSummaryItem)
    case _ => None
  }

  /**
   * The history after a summarize call returned `result` for `text`: a
   * genuine result goes in front as a new record whose id and timestamp both
   * come from `now`, and the list is cut to the 50 newest; anything else
   * leaves the history as it was.
   */
  function RecordSummary(history: seq<SummaryItem>, text: string, result: string, now: nat): (r: seq<SummaryItem>)
    ensures IsGenuineSummary(result) ==>
              && |r| == Min(|history| + 1, SummaryHistoryCap)
              && r[0] == SummaryItem(SummaryId(now), text, result, now)
              && r[1..] == history[..|r| - 1]
    ensures !IsGenuineSummary(result) ==> r == history
    ensures r != history ==> IsGenuineSummary(result)
  {
    if IsGenuineSummary(result) then PrependCapped(SummaryItem(SummaryId(now), text, result, now), history, SummaryHistoryCap)
    else history
  }

  /** Recording never lets a history of at most 50 records grow past 50. */
  lemma RecordSummaryKeepsCap(history: seq<SummaryItem>, text: string, result: string, now: nat)
    requires |history| <= SummaryHistoryCap
    ensures |RecordSummary(history, text, result, now)| <= SummaryHistoryCap
  {
  }

  /** What the mount effect finds under the history key. */
  datatype StoredHistory =
    | NothingStored          // no entry, or an empty string
    | Unparsable             // `JSON.parse` threw: the entry is removed
    | WrongShape             // parsed, but not an array of history records
    | Restored(items: seq<SummaryItem>)

  function ReadStoredHistory(stored: Option<string>, codec: Codec): (r: StoredHistory)
    ensures stored.None? || stored == Some("") ==> r.NothingStored?
    ensures r.Unparsable? <==> stored.Some? && stored.value != "" && codec.parse(stored.value).None?
    ensures r.Restored? ==> codec.parse(stored.value).Some? && DecodeSummaries(codec.parse(stored.value).value) == Some(r.items)
    ensures stored.Some? && stored.value != "" && codec.parse(stored.value).Some? && DecodeSummaries(codec.parse(stored.value).value).Some?
            ==> r == Restored(DecodeSummaries(codec.parse(stored.value).value).value)
    ensures stored.Some? && stored.value != "" && codec.parse(stored.value).Some? && DecodeSummaries(codec.parse(stored.value).value).None?
            ==> r == WrongShape
  {
    match stored
    case None => NothingStored
    case Some(text) =>
      if text == "" then NothingStored
      else match codec.parse(text)
        case None => Unparsable
        case Some(v) =>
          match DecodeSummaries(v)
          case None => WrongShape
          case Some(items) => Restored(items)
  }

  /** A history the panel wrote is read back whole by the next mount. */
  lemma StoredHistoryRoundTrip(items: seq<SummaryItem>, codec: Codec)
    requires RoundTrips(codec)
    ensures ReadStoredHistory(Some(codec.stringify(EncodeSummaries(items))), codec) == Restored(items)
  {
    forall item ensures Storable(EncodeSummaryItem(item)) && DecodeSummaryItem(EncodeSummaryItem(item)) == Some(item) {
      SummaryItemRoundTrip(item);
    }
    EncodedArrayIsStorable(items, EncodeSummaryItem);
    ArrayRoundTrip(items, EncodeSummaryItem, DecodeSummaryItem);
  }

  /** The summarizer's fields, and the page's storage it writes its history to. */
  class SummarizerPanel {
    var text: string
    var summary: string
    var history: seq<SummaryItem>
    const storage: LocalStorage
    const codec: Codec

    /** Mounting: empty fields, then the stored history is restored, or removed when it does not parse. */
    constructor (storage: LocalStorage, codec: Codec)
      modifies storage
      ensures this.storage == storage && this.codec == codec
      ensures text == "" && summary == ""
      ensures var found := ReadStoredHistory(if SummaryHistoryKey in old(storage.entries)
                                               then Some(old(storage.entries)[SummaryHistoryKey]) else None, codec);
              && history == (if found.Restored? then found.items else [])
              && storage.entries == (if found.Unparsable? then old(storage.entries) - {SummaryHistoryKey}
                                     else old(storage.entries))
    {
      this.storage := storage;
      this.codec := codec;
      text := "";
      summary := "";
      history := [];
      new;
      var stored := storage.GetItem(SummaryHistoryKey);
      match ReadStoredHistory(stored, codec)
      case Restored(items) =>
        history := items;
      case Unparsable =>
        storage.RemoveItem(SummaryHistoryKey);
      case _ =>
    }

    method SetText(t: string)
      modifies this
      ensures text == t && summary == old(summary) && history == old(history)
    {
      text := t;
    }

    /**
     * `handleSummarize`: an empty field does nothing. Otherwise the result is
     * shown, and a genuine one is recorded and the history written to storage.
     */
    method Summarize(sessionKey: string, b: Backend, now: nat) returns (sent: Option<Request>)
      modifies this, storage
      ensures text == old(text)
      ensures old(text) == "" ==> && summary == old(summary) && history == old(history)
                                  && storage.entries == old(storage.entries) && sent.None?
      ensures old(text) != "" ==> && Call(summary, sent) == SummarizeText(text, sessionKey, b)
                                  && history == RecordSummary(old(history), text, summary, now)
      ensures storage.entries == if old(text) != "" && IsGenuineSummary(summary)
                                 then old(storage.entries)[SummaryHistoryKey := codec.stringify(EncodeSummaries(history))]
                                 else old(storage.entries)
    {
      if text == "" {
        return None;
      }
      var result := SummarizeText(text, sessionKey, b);
      summary, sent := result.value, result.sent;
      Record(now);
    }

    /** Records the shown summary when it is genuine, and then writes the new history to storage. */
    method Record(now: nat)
      modifies this`history, storage
      ensures history == RecordSummary(old(history), text, summary, now)
      ensures storage.entries == if IsGenuineSummary(summary)
                                 then old(storage.entries)[SummaryHistoryKey := codec.stringify(EncodeSummaries(history))]
                                 else old(storage.entries)
    {
      if IsGenuineSummary(summary) {
        history := RecordSummary(history, text, summary, now);
        storage.SetItem(SummaryHistoryKey, codec.stringify(EncodeSummaries(history)));
      }
    }

    /** `handleSelectHistory`: a past record is shown again. */
    method SelectHistory(item: SummaryItem)
      modifies this
      ensures text == item.text && summary == item.summary && history == old(history)
    {
      text := item.text;
      summary := item.summary;
    }

    /** `handleClearHistory`: the list is emptied and its stored copy removed. */
    method ClearHistory()
      modifies this, storage
      ensures text == old(text) && summary == old(summary)
      ensures history == [] && SummaryHistoryKey !in storage.entries
      ensures storage.entries == old(storage.entries) - {SummaryHistoryKey}
    {
      history := [];
      storage.RemoveItem(SummaryHistoryKey);
    }
  }

  // ---------------------------------------------------------------------
  // Theme generator
  // ---------------------------------------------------------------------

  const ThemeFailedMessage := "Failed to generate theme. AI core may be unstable or API key is invalid. Try a different prompt."

  /** The theme generator's prompt field and error line. */
  class ThemeGeneratorPanel {
    var prompt: string
    var error: string

    constructor ()
      ensures prompt == "" && error == ""
    {
      prompt := "";
      error := "";
    }

    method SetPrompt(p: string)
      modifies this
      ensures prompt == p && error == old(error)
    {
      prompt := p;
    }

    /**
     * `handleGenerate`: an empty prompt does nothing. Otherwise a generated
     * theme is handed to the shell (`applied`) and the error line is cleared,
     * or, when there is none, the error line says so. Never both.
     */
    method Generate(sessionKey: string, b: Backend) returns (applied: Option<Theme>, sent: Option<Request>)
      modifies this
      ensures prompt == old(prompt)
      ensures old(prompt) == "" ==> error == old(error) && applied.None? && sent.None?
      ensures old(prompt) != "" ==> Call(applied, sent) == GenerateTheme(prompt, sessionKey, b)
      ensures old(prompt) != "" ==> (error == "" <==> applied.Some?)
      ensures old(prompt) != "" && applied.None? ==> error == ThemeFailedMessage
      ensures applied.Some? ==> IsCompleteTheme(applied.value)
    {
      if prompt == "" {
        return None, None;
      }
      error := "";
      var result := GenerateTheme(prompt, sessionKey, b);
      applied, sent := result.value, result.sent;
      if applied.None? {
        error := ThemeFailedMessage;
      }
    }
  }
}
