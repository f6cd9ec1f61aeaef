/**
 * The AI service module: which client a call uses, the three requests
 * (search, summarize, theme), and how each failure is turned into a fixed
 * string or an absent theme. The generative service itself is a parameter:
 * a Backend says whether a client can be built from a key, what the service
 * replies to a request, and what `JSON.parse` makes of a text. Each call
 * reports the request it sent, so "no request was made" can be stated.
 */
module Gemini {
  import opened Maybe
  import opened Text
  import opened Json
  import opened Types

  /** A service client, built from one API key. */
  datatype Client = Client(apiKey: string)

  /** What a request asks for: the user's input, to be put into that request's fixed template by PromptText. */
  datatype Contents = SearchQuery(query: string) | SummarizeBody(text: string) | ThemeDescription(prompt: string)

  /** One `generateContent` call; `structured` is set when the fixed four-key theme schema is attached. */
  datatype Request = Request(client: Client, model: string, contents: Contents, structured: bool)

  /** What `generateContent` did: resolved with a response text, or threw. */
  datatype Reply = Answer(text: string) | Raised

  /**
   * The outside world of the service module. `envKey` is the host's API key
   * ("" when unset), read once when the module loads; `constructs(k)` holds
   * when building a client from key `k` returns instead of throwing.
   */
  datatype Backend = Backend(
    envKey: string,
    constructs: string -> bool,
    service: Request -> Reply,
    parse: string -> Option<Json>)

  /** A call's result together with the request it sent, if it sent one. */
  datatype Call<T> = Call(value: T, sent: Option<Request>)

  const ModelName := "gemini-2.5-flash"

  /** The marker the summarizer panel uses to tell a failure from a summary. */
  const ErrorPrefix := "Error:"

  const NotConfiguredMessage := ErrorPrefix + " API Key not configured. Please set it in the Settings panel or via host environment variables."
  const SearchFailedMessage := ErrorPrefix + " Could not connect to AI core. System might be offline or the API key is invalid."
  const SummarizeFailedMessage := ErrorPrefix + " Failed to process text. The AI summarization module is unresponsive or the API key is invalid."
  const NoTextMessage := "No text provided to summarize."

  // ---------------------------------------------------------------------
  // Credential resolution
  // ---------------------------------------------------------------------

  /** The module-wide fallback client: present exactly when the host supplies a key. */
  function EnvClient(b: Backend): (r: Option<Client>)
    ensures r.Some? <==> b.envKey != ""
    ensures r.Some? ==> r.value.apiKey == b.envKey
  {
    if b.envKey == "" then None else Some(Client(b.envKey))
  }

  /**
   * A session key takes precedence: its own client, or nothing when building
   * that client throws (never the fallback). Without a session key the
   * fallback client is used, which may itself be absent.
   */
  function GetAiClient(sessionKey: string, b: Backend): (r: Option<Client>)
    ensures sessionKey != "" ==> (r.Some? <==> b.constructs(sessionKey))
    ensures sessionKey != "" && r.Some? ==> r.value.apiKey == sessionKey
    ensures sessionKey == "" ==> (r.Some? <==> b.envKey != "")
    ensures sessionKey == "" && r.Some? ==> r.value.apiKey == b.envKey
  {
    if sessionKey != "" then
      if b.constructs(sessionKey) then Some(Client(sessionKey)) else None
    else EnvClient(b)
  }

  // ---------------------------------------------------------------------
  // Search and summarize
  // ---------------------------------------------------------------------

  /** The text sent as `contents`: the input quoted into the request's template. */
  function PromptText(c: Contents): string {
    match c
    case SearchQuery(query) =>
      "You are a futuristic AI assistant in a cyberpunk browser. Respond to the following user query: \"" + query + "\""
    case SummarizeBody(text) =>
      "Summarize the following text in a concise, bulleted list suitable for a cyberpunk interface:\n\n---\n" + text + "\n---"
    case ThemeDescription(prompt) =>
      "Generate a cyberpunk theme based on this prompt: \"" + prompt + "\". The theme should evoke a high-tech, futuristic feel."
  }

  /** `smartSearch`: the service's answer, or a fixed error string; no request without a client. */
  function SmartSearch(prompt: string, sessionKey: string, b: Backend): (r: Call<string>)
    ensures GetAiClient(sessionKey, b).None? ==> r == Call(NotConfiguredMessage, None)
    ensures r.sent.Some? <==> GetAiClient(sessionKey, b).Some?
    ensures r.sent.Some? ==> r.sent.value == Request(GetAiClient(sessionKey, b).value, ModelName, SearchQuery(prompt), false)
    ensures r.sent.Some? && b.service(r.sent.value).Raised? ==> r.value == SearchFailedMessage
    ensures r.sent.Some? && b.service(r.sent.value).Answer? ==> r.value == b.service(r.sent.value).text
  {
    match GetAiClient(sessionKey, b)
    case None => Call(NotConfiguredMessage, None)
    case Some(ai) =>
      var request := Request(ai, ModelName, SearchQuery(prompt), false);
      match b.service(request)
      case Answer(text) => Call(text, Some(request))
      case Raised => Call(SearchFailedMessage, Some(request))
  }

  /**
   * `summarizeText`: the client check comes first, so without a client even
   * empty text gets the not-configured error; with one, text that trims to
   * nothing gets the "no text" sentinel and no request is made.
   */
  function SummarizeText(text: string, sessionKey: string, b: Backend): (r: Call<string>)
    ensures GetAiClient(sessionKey, b).None? ==> r == Call(NotConfiguredMessage, None)
    ensures GetAiClient(sessionKey, b).Some? && AllWhitespace(text) ==> r == Call(NoTextMessage, None)
    ensures r.sent.Some? <==> GetAiClient(sessionKey, b).Some? && !AllWhitespace(text)
    ensures r.sent.Some? ==> r.sent.value == Request(GetAiClient(sessionKey, b).value, ModelName, SummarizeBody(text), false)
    ensures r.sent.Some? && b.service(r.sent.value).Raised? ==> r.value == SummarizeFailedMessage
    ensures r.sent.Some? && b.service(r.sent.value).Answer? ==> r.value == b.service(r.sent.value).text
  {
    match GetAiClient(sessionKey, b)
    case None => Call(NotConfiguredMessage, None)
    case Some(ai) =>
      if Trim(text) == "" then Call(NoTextMessage, None)
      else
        var request := Request(ai, ModelName, SummarizeBody(text), false);
        match b.service(request)
        case Answer(answer) => Call(answer, Some(request))
        case Raised => Call(SummarizeFailedMessage, Some(request))
  }

  /** Every fixed failure string starts with "Error:"; the "no text" sentinel does not, and trimming leaves it as is. */
  lemma FailureStringsAreMarked()
    ensures StartsWith(NotConfiguredMessage, ErrorPrefix)
    ensures StartsWith(SearchFailedMessage, ErrorPrefix)
    ensures StartsWith(SummarizeFailedMessage, ErrorPrefix)
    ensures !StartsWith(NoTextMessage, ErrorPrefix)
    ensures Trim(NoTextMessage) == NoTextMessage
  {
    assert NoTextMessage[0] == 'N';
    assert Trimmed(NoTextMessage);
  }

  // ---------------------------------------------------------------------
  // Theme generation
  // ---------------------------------------------------------------------

  /** Some `{` occurs before some `}`. */
  predicate HasBracePair(s: string) {
    exists i, j :: 0 <= i < j < |s| && s[i] == '{' && s[j] == '}'
  }

  /**
   * What `/\{[\s\S]*\}/` matches at (i, j): the leftmost `{` that can start a
   * match, which is the first `{`, and, the star being greedy, the last `}`.
   */
  predicate GreedyBraceMatch(s: string, i: int, j: int) {
    && 0 <= i < j < |s|
    && s[i] == '{' && s[j] == '}'
    && (forall k :: 0 <= k < i ==> s[k] != '{')
    && (forall k :: j < k < |s| ==> s[k] != '}')
  }

  /** The text of the regular-expression match, from the first `{` to the last `}` inclusive. */
  function JsonSpan(s: string): (r: Option<string>)
    ensures r.Some? <==> HasBracePair(s)
    ensures r.Some? ==> exists i, j :: GreedyBraceMatch(s, i, j) && r.value == s[i..j + 1]
  {
    match (FirstIndexOf(s, '{'), LastIndexOf(s, '}'))
    case (Some(i), Some(j)) =>
      if i < j then
        assert GreedyBraceMatch(s, i, j);
        Some(s[i..j + 1])
      else None
    case _ => None
  }

  /** JSON wrapped in prose or a code fence is cut out whole, whatever is inside it. */
  lemma ExtractsWrappedJson(before: string, body: string, after: string)
    requires '{' !in before && '}' !in after
    requires |body| >= 2 && body[0] == '{' && body[|body| - 1] == '}'
    ensures JsonSpan(before + body + after) == Some(body)
  {
    var s := before + body + after;
    var i, j := |before|, |before| + |body| - 1;
    assert GreedyBraceMatch(s, i, j) by {
      assert forall k :: 0 <= k < i ==> s[k] == before[k];
      assert forall k :: j < k < |s| ==> s[k] == after[k - j - 1];
    }
    assert s[i..j + 1] == body;
    var r := JsonSpan(s);
    assert HasBracePair(s);
    var i', j' :| GreedyBraceMatch(s, i', j') && r.value == s[i'..j' + 1];
    assert i' == i && j' == j;
  }

  /** Text without a brace pair, such as a refusal, yields no span. */
  lemma NoSpanWithoutBraces(s: string)
    requires '{' !in s
    ensures JsonSpan(s) == None
  {
  }

  /** The object `JSON.parse` gave for the reply, if the reply arrived and held a parsable span. */
  function ParsedReply(reply: Reply, parse: string -> Option<Json>): (r: Option<Json>)
    ensures reply.Raised? ==> r.None?
    ensures reply.Answer? && JsonSpan(Trim(reply.text)).None? ==> r.None?
    ensures r.Some? ==> reply.Answer? && JsonSpan(Trim(reply.text)).Some?
    ensures reply.Answer? && JsonSpan(Trim(reply.text)).Some? ==> r == parse(JsonSpan(Trim(reply.text)).value)
  {
    match reply
    case Raised => None
    case Answer(text) =>
      match JsonSpan(Trim(text))
      case None => None
      case Some(span) => parse(span)
  }

  const ThemeKeys := ["primaryColor", "accentColor", "textColor", "backgroundColor"]

  /**
   * The validation as written: each of the four members must be truthy, and
   * then the parsed object itself is returned, whatever the members' types.
   */
  function AcceptThemeObject(obj: Json): (r: Option<Json>)
    ensures r.Some? ==> r.value == obj && obj.JObject?
    ensures r.Some? <==> forall k :: 0 <= k < 4 ==> Truthy(Member(obj, ThemeKeys[k]))
  {
    assert ThemeKeys[0] == "primaryColor" && ThemeKeys[1] == "accentColor";
    assert ThemeKeys[2] == "textColor" && ThemeKeys[3] == "backgroundColor";
    if && Truthy(Member(obj, "primaryColor"))
       && Truthy(Member(obj, "accentColor"))
       && Truthy(Member(obj, "textColor"))
       && Truthy(Member(obj, "backgroundColor"))
    then Some(obj)
    else None
  }

  /** The member `key` when it is a non-empty string. */
  function ColourMember(obj: Json, key: string): (r: Option<string>)
    ensures r.Some? ==> r.value != "" && Member(obj, key) == Found(JString(r.value))
    ensures r.None? ==> !(Member(obj, key).Found? && Member(obj, key).value.JString? && Member(obj, key).value.s != "")
  {
    match Member(obj, key)
    case Found(JString(s)) => if s != "" then Some(s) else None
    case _ => None
  }

  /** The validation as intended: a Theme exactly when all four members are non-empty strings. */
  function ThemeFromObject(obj: Json): (r: Option<Theme>)
    ensures r.Some? ==> IsCompleteTheme(r.value)
    ensures r.Some? <==> forall k :: 0 <= k < 4 ==> ColourMember(obj, ThemeKeys[k]).Some?
    ensures r.Some? ==> && Member(obj, "primaryColor") == Found(JString(r.value.primaryColor))
                        && Member(obj, "accentColor") == Found(JString(r.value.accentColor))
                        && Member(obj, "textColor") == Found(JString(r.value.textColor))
                        && Member(obj, "backgroundColor") == Found(JString(r.value.backgroundColor))
  {
    assert ThemeKeys[0] == "primaryColor" && ThemeKeys[1] == "accentColor";
    assert ThemeKeys[2] == "textColor" && ThemeKeys[3] == "backgroundColor";
    match (ColourMember(obj, "primaryColor"), ColourMember(obj, "accentColor"),
           ColourMember(obj, "textColor"), ColourMember(obj, "backgroundColor"))
    case (Some(p), Some(a), Some(t), Some(bg)) => Some(Theme(p, a, t, bg))
    case _ => None
  }

  /** Whatever the intended check accepts, the written one accepts too (the converse for string members is `StringColoursMakeChecksAgree`). */
  lemma IntendedCheckIsStricter(obj: Json)
    ensures ThemeFromObject(obj).Some? ==> AcceptThemeObject(obj) == Some(obj)
  {
  }

  /** When all four members are strings, the written check accepts exactly what the intended one accepts. */
  lemma StringColoursMakeChecksAgree(obj: Json)
    requires forall k :: 0 <= k < 4 ==> Member(obj, ThemeKeys[k]).Found? && Member(obj, ThemeKeys[k]).value.JString?
    ensures AcceptThemeObject(obj).Some? <==> ThemeFromObject(obj).Some?
  {
    if AcceptThemeObject(obj).Some? {
      forall k | 0 <= k < 4
        ensures ColourMember(obj, ThemeKeys[k]).Some?
      {
        assert Truthy(Member(obj, ThemeKeys[k]));
      }
    }
  }

  /** Members that are truthy but not strings pass the written check and fail the intended one. */
  lemma WrittenCheckAcceptsNonStringColours()
    ensures var obj := JObject(map["primaryColor" := JNumber(1.0), "accentColor" := JBool(true),
                                   "textColor" := JArray([]), "backgroundColor" := JObject(map[])]);
            AcceptThemeObject(obj) == Some(obj) && ThemeFromObject(obj) == None
  {
  }

  function ThemeRequest(ai: Client, prompt: string): Request {
    Request(ai, ModelName, ThemeDescription(prompt), true)
  }

  /** `generateTheme` as written: the parsed object after the truthiness check, or null. */
  function GenerateThemeAsWritten(prompt: string, sessionKey: string, b: Backend): (r: Call<Option<Json>>)
    ensures GetAiClient(sessionKey, b).None? ==> r == Call(None, None)
    ensures r.sent.Some? <==> GetAiClient(sessionKey, b).Some?
    ensures r.sent.Some? ==> r.sent.value == ThemeRequest(GetAiClient(sessionKey, b).value, prompt)
    ensures r.value.Some? <==> && r.sent.Some? && ParsedReply(b.service(r.sent.value), b.parse).Some?
                               && forall k :: 0 <= k < 4 ==> Truthy(Member(ParsedReply(b.service(r.sent.value), b.parse).value, ThemeKeys[k]))
    ensures r.value.Some? ==> r.value == ParsedReply(b.service(r.sent.value), b.parse) && r.value.value.JObject?
  {
    match GetAiClient(sessionKey, b)
    case None => Call(None, None)
    case Some(ai) =>
      var request := ThemeRequest(ai, prompt);
      match ParsedReply(b.service(request), b.parse)
      case None => Call(None, Some(request))
      case Some(obj) => Call(AcceptThemeObject(obj), Some(request))
  }

  /**
   * `generateTheme` with the intended validation: a whole Theme whose four
   * colours are the reply's non-empty string members, or nothing. No client
   * means no request; a thrown request, a reply without a brace span, an
   * unparsable span or a missing member all give nothing.
   */
  function GenerateTheme(prompt: string, sessionKey: string, b: Backend): (r: Call<Option<Theme>>)
    ensures GetAiClient(sessionKey, b).None? ==> r == Call(None, None)
    ensures r.sent.Some? <==> GetAiClient(sessionKey, b).Some?
    ensures r.sent.Some? ==> r.sent.value == ThemeRequest(GetAiClient(sessionKey, b).value, prompt)
    ensures r.sent.Some? && ParsedReply(b.service(r.sent.value), b.parse).None? ==> r.value.None?
    ensures r.sent.Some? && ParsedReply(b.service(r.sent.value), b.parse).Some? ==>
              r.value == ThemeFromObject(ParsedReply(b.service(r.sent.value), b.parse).value)
    ensures r.value.Some? ==> IsCompleteTheme(r.value.value) && ParsedReply(b.service(r.sent.value), b.parse).Some?
  {
    match GetAiClient(sessionKey, b)
    case None => Call(None, None)
    case Some(ai) =>
      var request := ThemeRequest(ai, prompt);
      match ParsedReply(b.service(request), b.parse)
      case None => Call(None, Some(request))
      case Some(obj) => Call(ThemeFromObject(obj), Some(request))
  }

  /**
   * The two versions send the same request; a theme the intended version
   * yields is accepted by the written one, and an object the written one
   * accepts whose four colour members are strings yields the theme of
   * those strings under the intended one.
   */
  lemma GenerateThemeVersionsAgree(prompt: string, sessionKey: string, b: Backend)
    ensures GenerateTheme(prompt, sessionKey, b).sent == GenerateThemeAsWritten(prompt, sessionKey, b).sent
    ensures GenerateTheme(prompt, sessionKey, b).value.Some? ==> GenerateThemeAsWritten(prompt, sessionKey, b).value.Some?
    ensures var w := GenerateThemeAsWritten(prompt, sessionKey, b).value;
            w.Some? && (forall k :: 0 <= k < 4 ==> Member(w.value, ThemeKeys[k]).Found? && Member(w.value, ThemeKeys[k]).value.JString?)
            ==> GenerateTheme(prompt, sessionKey, b).value == ThemeFromObject(w.value) && ThemeFromObject(w.value).Some?
  {
    var w := GenerateThemeAsWritten(prompt, sessionKey, b).value;
    if w.Some? && (forall k :: 0 <= k < 4 ==> Member(w.value, ThemeKeys[k]).Found? && Member(w.value, ThemeKeys[k]).value.JString?) {
      StringColoursMakeChecksAgree(w.value);
    }
  }

  // ---------------------------------------------------------------------
  // Two worked replies
  // ---------------------------------------------------------------------

  const FencedThemeBody := "{" + "\"primaryColor\":\"#111\",\"accentColor\":\"#222\",\"textColor\":\"#333\",\"backgroundColor\":\"#444\"" + "}"
  const FencePrefix := "Sure! ```json\n"
  const FenceSuffix := "\n```"
  const FencedThemeReply := FencePrefix + FencedThemeBody + FenceSuffix

  const FencedThemeObject := JObject(map["primaryColor" := JString("#111"), "accentColor" := JString("#222"),
                                          "textColor" := JString("#333"), "backgroundColor" := JString("#444")])

  lemma FencedReplySpan()
    ensures JsonSpan(Trim(FencedThemeReply)) == Some(FencedThemeBody)
  {
    assert FencedThemeReply[0] == 'S';
    assert FencedThemeReply[|FencedThemeReply| - 1] == '`';
    assert Trimmed(FencedThemeReply);
    assert '{' !in FencePrefix && '}' !in FenceSuffix;
    ExtractsWrappedJson(FencePrefix, FencedThemeBody, FenceSuffix);
  }

  lemma FencedObjectIsTheme()
    ensures ThemeFromObject(FencedThemeObject) == Some(Theme("#111", "#222", "#333", "#444"))
  {
    assert ColourMember(FencedThemeObject, "primaryColor") == Some("#111");
    assert ColourMember(FencedThemeObject, "accentColor") == Some("#222");
    assert ColourMember(FencedThemeObject, "textColor") == Some("#333");
    assert ColourMember(FencedThemeObject, "backgroundColor") == Some("#444");
  }

  /**
   * Any reply that, once trimmed, wraps in brace-free text an object whose
   * four colours are non-empty strings yields a theme, and that theme is made of exactly
   * those four strings.
   */
  lemma WrappedThemeReplyYieldsTheme(prompt: string, sessionKey: string, b: Backend,
                                     text: string, before: string, body: string, after: string, obj: Json)
    requires GetAiClient(sessionKey, b).Some?
    requires b.service(ThemeRequest(GetAiClient(sessionKey, b).value, prompt)) == Answer(text)
    requires Trim(text) == before + body + after
    requires '{' !in before && '}' !in after
    requires |body| >= 2 && body[0] == '{' && body[|body| - 1] == '}'
    requires b.parse(body) == Some(obj)
    requires forall k :: 0 <= k < 4 ==> ColourMember(obj, ThemeKeys[k]).Some?
    ensures GenerateTheme(prompt, sessionKey, b).value.Some?
    ensures GenerateTheme(prompt, sessionKey, b).value == ThemeFromObject(obj)
  {
    ExtractsWrappedJson(before, body, after);
  }

  /** A reply that wraps the theme object in prose and a code fence still yields that theme. */
  lemma FencedReplyYieldsTheme(prompt: string, sessionKey: string, b: Backend)
    requires GetAiClient(sessionKey, b).Some?
    requires b.service(ThemeRequest(GetAiClient(sessionKey, b).value, prompt)) == Answer(FencedThemeReply)
    requires b.parse(FencedThemeBody) == Some(FencedThemeObject)
    ensures GenerateTheme(prompt, sessionKey, b).value == Some(Theme("#111", "#222", "#333", "#444"))
  {
    var request := ThemeRequest(GetAiClient(sessionKey, b).value, prompt);
    assert ParsedReply(b.service(request), b.parse) == Some(FencedThemeObject) by {
      FencedReplySpan();
    }
    FencedObjectIsTheme();
  }

  /** A refusal holds no JSON, so no theme comes of it. */
  lemma RefusalYieldsNoTheme(prompt: string, sessionKey: string, b: Backend)
    requires GetAiClient(sessionKey, b).Some?
    requires b.service(ThemeRequest(GetAiClient(sessionKey, b).value, prompt)) == Answer("I cannot comply")
    ensures GenerateTheme(prompt, sessionKey, b).value == None
  {
    assert Trimmed("I cannot comply");
    NoSpanWithoutBraces("I cannot comply");
  }
}
