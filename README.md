# Cybernetic Navigator — a verified model of the session core

Cybernetic Navigator is a browser shell written in React. It has a viewport, a history of visited addresses, bookmarks, and AI side panels for search, summarizing and theme generation. This project models the parts of the shell that hold its rules, and proves properties about them in Dafny:

- **The shell's session state** (`App.tsx`). The model covers:
  - the visited-address history (no repeat at the front, at most 50 entries);
  - the bookmark toggle and delete;
  - the session API key and how it is kept in `localStorage`;
  - the drag-resize clamp of the sidebar;
  - the style tokens derived from the theme, including the `rgba(r, g, b, 0.3)` border colour read from the primary colour's hex pairs;
  - the defaults.
- **The AI service module** (`services/geminiService.ts`). The model covers:
  - which client a call uses;
  - the fixed `Error:` strings and the "no text" sentinel;
  - cutting the JSON span out of the theme reply;
  - validating the parsed object.
- **The panels' logic** (`components/AIPanels.tsx`). The model covers:
  - address correction;
  - the bookmark star;
  - the empty-input guards;
  - the summarizer's history rule, with its storage;
  - the theme generator's apply-or-error step.
- **The data types** (`types.ts`).

## How the model is built

- The state the source updates in place is modelled as classes whose methods reassign their fields, each with `modifies` clauses: `App.Session`, `Panels.SummarizerPanel`, `Panels.SearchPanel`, `Panels.ThemeGeneratorPanel` and `Storage.LocalStorage`.
- Each handler and the effects that follow it form one method. Its `ensures` clauses state the whole new state in terms of pure functions, such as `PushHistory`, `Toggled`, `Deleted`, `SidebarWidth`, `RecordSummary` and `PersistApiKey`. The properties of those functions are proved as lemmas.
- `Session.Valid()` is kept by every method. It says that the sidebar is at least 350 wide, that a side panel is active, and that storage mirrors the session's key, bookmarks and history.
- The generative service is a parameter (`Gemini.Backend`). It is:
  - the host's key;
  - whether a client can be built from a key;
  - the service's reply to a request;
  - the JSON parser.

  Every call returns the request it sent, if any, so "no request is made" is a provable statement.
- `JSON.parse`/`JSON.stringify` form an abstract `Json.Codec`. Round trips through storage are proved for any codec satisfying `Json.RoundTrips`. That predicate asks the parser to read back what the printer wrote, for values whose numbers are all whole (`Json.Storable`). The only numbers the navigator stores are millisecond timestamps.
- `Gemini.Backend.parse` and `Json.Codec.parse` both stand for the same `JSON.parse`. They are kept as two parameters because the service module uses only the parser, on the reply's text, while the storage code needs the parser together with the printer it inverts. No property proved here depends on the two being the same function, so every result holds in particular when one function is passed for both.
- JavaScript's `trim`, `indexOf`, `substring`, `replace`, `parseInt(_, 16)` and number formatting are written out in `Text`, following the language's definitions.

## Behaviour of the code worth knowing

- **Sidebar width.** A drag to 500 with the container at offset 100 and 900 wide gives `max(350, min(500 - 100, 900 - 400))`, which is 400 (`App.SidebarWidthExamples`).
- **Corrupt stored entries.** Only the summarizer removes a stored history that does not parse (`components/AIPanels.tsx:79-82`). The shell's bookmark and history loaders fall back to an empty list (`App.tsx:22-28`, `App.tsx:32-38`), and the mount effects then write that empty list over the corrupt entry at once (`App.tsx:54-68`, `App.Session.constructor`).
- **Summarizing empty text.** `summarizeText` checks for a client before it checks the text (`services/geminiService.ts:42-47`). Without a client, even empty text gets the not-configured error. The panel never calls the service for an empty field (`components/AIPanels.tsx:86`).

## Model

| member | source | states |
|---|---|---|
| Types.AllPanelTypes | types.ts:70 | the panel type has exactly seven values, each listed once |
| App.SidePanelButtons | App.tsx:167 | six selector buttons, distinct, exactly the panels other than the viewport |
| App.RenderedPanel | App.tsx:148-165 | the sidebar draws the chosen side panel, and the search panel for any other value; never the viewport |
| Gemini.EnvClient | services/geminiService.ts:7-8 | the fallback client exists exactly when the host supplies a key, and uses that key |
| Gemini.GetAiClient | services/geminiService.ts:10-20 | a non-empty session key gives its own client or none when construction throws, never the fallback; without one the fallback, which may be absent |
| Gemini.SmartSearch | services/geminiService.ts:25-39 | no client: the not-configured error and no request; otherwise exactly the search request is sent and its answer, or the fixed failure string when it throws, is returned |
| Gemini.SummarizeText | services/geminiService.ts:41-59 | the client check precedes the empty-text check; text that trims to nothing gives the sentinel without a request; otherwise the answer or the fixed failure string |
| Gemini.FailureStringsAreMarked | services/geminiService.ts:26-57 | every failure string starts with `Error:`; the sentinel does not, and is its own trim |
| Gemini.JsonSpan | services/geminiService.ts:90-92 | a span exists iff some `{` precedes some `}`; it runs from the first `{` to the last `}` inclusive |
| Gemini.ExtractsWrappedJson | services/geminiService.ts:91 | an object wrapped in brace-free prose or a code fence is cut out whole |
| Gemini.NoSpanWithoutBraces | services/geminiService.ts:92-95 | text without `{` yields no span |
| Gemini.ParsedReply | services/geminiService.ts:90-107 | a thrown request or a reply without a span gives no object; a reply with a span gives exactly what the parser makes of that span |
| Gemini.AcceptThemeObject | services/geminiService.ts:99-103 | as written: the parsed object itself is accepted iff all four members are truthy |
| Gemini.ColourMember | services/geminiService.ts:99 | a member is a usable colour iff it is a non-empty string |
| Gemini.ThemeFromObject | services/geminiService.ts:99-103 | as intended: a whole Theme iff all four members are non-empty strings, and its fields are those strings |
| Gemini.IntendedCheckIsStricter | services/geminiService.ts:99-101 | whatever the intended check accepts, the written one accepts |
| Gemini.WrittenCheckAcceptsNonStringColours | services/geminiService.ts:99-101 | truthy non-string members pass the written check and fail the intended one |
| Gemini.GenerateThemeAsWritten | services/geminiService.ts:73-108 | as written: no client gives null and no request; otherwise exactly the theme request, and the parsed object itself is the result iff it parsed and its four members are truthy |
| Gemini.GenerateTheme | services/geminiService.ts:73-108 | with the corrected check: no client gives nothing and no request; otherwise exactly the theme request, and the result is the corrected check applied to the parsed reply, or nothing when the reply gives no object |
| Gemini.StringColoursMakeChecksAgree | services/geminiService.ts:99-101 | when all four colour members are strings, the written check accepts exactly the objects the intended check accepts |
| Gemini.GenerateThemeVersionsAgree | services/geminiService.ts:73-108 | both versions send the same request; every theme the intended version yields is accepted by the written one; and an object the written one accepts whose four colour members are strings yields, under the intended one, the theme of those strings |
| Gemini.WrappedThemeReplyYieldsTheme | services/geminiService.ts:90-103 | any reply whose trimmed text wraps, in brace-free text, an object whose four colours are non-empty strings yields the theme made of those strings |
| Gemini.FencedReplyYieldsTheme | services/geminiService.ts:90-101 | a reply of prose, a json code fence and the theme object yields that theme |
| Gemini.RefusalYieldsNoTheme | services/geminiService.ts:92-95 | the reply "I cannot comply" yields no theme |
| ThemeTokens.Tokens | App.tsx:72-77 | the four colours as given, the glow colour is the primary colour, the translucent background is the background with `d9` appended, and the border is the rgba colour read from the primary colour |
| ThemeTokens.TransparentBackground | App.tsx:76 | the background colour followed by `d9` |
| ThemeTokens.HexComponents | App.tsx:79-82 | each parsed component lies within ±255 |
| ThemeTokens.WellFormedComponents | App.tsx:79-82 | for `#rrggbb` the three components are the values of the digit pairs at offsets 0-1, 2-3 and 4-5 after the `#` |
| ThemeTokens.ComponentsOfBytes | App.tsx:79-82 | a colour printed from three bytes is read back as exactly those bytes |
| ThemeTokens.BorderColor | App.tsx:79-83 | for every well-formed `#rrggbb` colour, in upper or lower case, the border colour is `rgba(r, g, b, 0.3)` with each component the value of its hex digit pair in decimal |
| ThemeTokens.ComponentsInDecimal | App.tsx:80-83 | each component of a well-formed colour is formatted as its digit pair's value in decimal |
| ThemeTokens.BorderColorOfPrintedBytes | App.tsx:79-83 | the border colour of a printed `#rrggbb` is `rgba(r, g, b, 0.3)` in decimal |
| ThemeTokens.DefaultBorderColor | App.tsx:10-83 | `#03d8f3` gives `rgba(3, 216, 243, 0.3)` |
| App.DefaultThemeTokens | App.tsx:9-83 | the default theme's border is `rgba(3, 216, 243, 0.3)` and its translucent background `#1a1a2ed9` |
| Text.TrimRemovesPadding | services/geminiService.ts:45 | trimming any whitespace laid around a text with no whitespace at its ends gives exactly that text |
| Text.TrimOfPaddedSlice | services/geminiService.ts:45 | a non-empty middle with no whitespace at its ends and only whitespace on either side is what `trim` keeps |
| Text.Trim | services/geminiService.ts:45 | the result is a slice of the text with only whitespace cut off before and after it, has no whitespace at either end, is unchanged for already-trimmed text, and is empty iff the text is all whitespace |
| Text.ParseIntHex | App.tsx:80-82 | one or two hex digits parse to their value; a text with no hex digit gives NaN; a parse of at most two characters lies within ±255 |
| Text.RemoveFirstSplices | App.tsx:79 | `replace('#', '')` removes exactly the first `#`, or nothing when there is none |
| Text.Substring | App.tsx:80-82 | the characters between the two indices, in either order, with an end past the text read as its end; two indices at or before the start, or at or past the end, give nothing |
| Text.SubstringSwaps | App.tsx:80-82 | the order of the two indices does not matter |
| Text.SubstringClamps | App.tsx:80-82 | a negative index acts as 0 and one past the end as the length |
| Text.SubstringExamples | App.tsx:80-82 | `"abc".substring(2, 4)` and `(4, 2)` are `"c"`, and `(-1, 2)` is `"ab"` |
| Text.FormatNumber | App.tsx:83 | a non-negative number is printed as its decimal spelling without a leading zero, a negative one with a leading minus, and NaN as `NaN` |
| Text.DecimalSpellingIsUnique | App.tsx:83 | a decimal spelling without a leading zero is the only one its value has, so the printed text is fixed by these contracts |
| Lists.PrependCapped | App.tsx:94-95 | the new element in front, followed by the old list cut so the total is at most the cap |
| Lists.Filter | App.tsx:104 | keeps exactly the accepted elements |
| Lists.FilterAppend | App.tsx:115 | filtering keeps the survivors' relative order |
| App.PushHistory | App.tsx:90-96 | the head is the new address; the history is unchanged iff that address was already first; otherwise at most 50 entries, the old list's prefix after the head |
| App.PushHistoryKeepsNoAdjacentRepeats | App.tsx:90-96 | a history without repeats in a row keeps none after a visit |
| App.VisitAll | App.tsx:87-97 | after a run of visits the history starts with the last address visited |
| App.VisitAllKeepsHistoryShape | App.tsx:87-97 | over any run of visits the history stays within 50 with no repeat in a row |
| App.BookmarkId | App.tsx:107 | the id is `bm-` followed by the decimal spelling of the time, with no leading zero |
| App.WithoutUrl | App.tsx:104 | removes every bookmark for the address and keeps all others |
| App.WithoutUrlKeepsOrder | App.tsx:104 | the bookmarks that stay keep their order |
| App.Toggled | App.tsx:99-112 | a blank address changes nothing; otherwise the address is bookmarked afterwards iff it was not before, removed everywhere or added once in front |
| App.ToggledKeepsUniqueUrls | App.tsx:99-112 | toggling never lets an address be bookmarked twice |
| App.ToggleTwiceRestoresUrls | App.tsx:99-112 | toggling an address twice restores the set of bookmarked addresses |
| App.ToggleTwiceRestoresNewUrl | App.tsx:102-110 | adding an address and toggling it off gives back exactly the old list |
| App.Deleted | App.tsx:114-116 | removes exactly the bookmarks with that id and keeps the others |
| App.DeletedKeepsOrder | App.tsx:115 | the bookmarks that stay keep their order |
| App.DeleteUnknownIdChangesNothing | App.tsx:115 | an id no bookmark has leaves the list as it is |
| App.SidebarWidth | App.tsx:125-131 | the width follows the pointer between 350 and the container less 400; past that maximum it is the maximum; below 350, or when the maximum is under 350, it is 350 |
| App.NarrowContainerPinsMinimum | App.tsx:128-130 | in a container narrower than 750 the width is 350 |
| App.SidebarWidthExamples | App.tsx:127-130 | (500, 100, 900) gives 400 and (50, 100, 900) gives 350 |
| App.PersistApiKey | App.tsx:46-52 | a non-empty key is written, an empty one removes the entry, nothing else changes |
| App.StoredApiKey | App.tsx:16-18 | the initial key is the stored key when there is one, and empty otherwise |
| App.LoadBookmarks | App.tsx:21-29 | no entry or an empty entry gives no bookmarks, nor does text that does not parse; a stored array whose items decode as bookmarks is returned as decoded |
| App.LoadHistory | App.tsx:31-39 | no entry or an empty entry gives no history, nor does text that does not parse; a stored array of strings is returned as decoded |
| App.ApiKeyRoundTrip | App.tsx:16-52 | a key the effect stored is the key the next visit starts with |
| App.LoadList | App.tsx:21-39 | nothing stored, empty text or text that does not parse gives an empty list; a stored array that parses and decodes is returned as decoded, and a non-empty result is only ever that |
| App.LoadListRoundTrip | App.tsx:21-68 | a list the effects stored is read back whole, for any codec that reads back what it prints |
| App.ReloadRestoresSession | App.tsx:16-68 | a new visit restores the key, bookmarks and history the last one left in storage |
| App.Session.constructor | App.tsx:9-68 | the defaults and the stored key, bookmarks and history are loaded; then the three effects write exactly those three keys, and every other entry stays |
| App.Session.ChangeUrl | App.tsx:87-97 | the viewport shows the address, the history is pushed, and storage is written only when the history changed |
| App.Session.LoadUrl | components/AIPanels.tsx:303-310 | the corrected address is visited, and storage is written only when the history changed; an empty field changes nothing |
| App.Session.AddBookmark | App.tsx:99-112 | the toggle, and a storage write unless the address was blank |
| App.Session.DeleteBookmark | App.tsx:114-116 | deletion by id, then the bookmarks are written |
| App.Session.SetApiKey | App.tsx:46-52 | the new key, persisted when it changed |
| App.Session.ApplyTheme | App.tsx:140-142 | the new theme and its tokens |
| App.Session.SelectPanel | App.tsx:178 | the chosen side panel is active and drawn |
| App.Session.MouseMove | App.tsx:125-132 | while dragging, with the container on the page, the width follows the clamp; otherwise it is unchanged |
| App.Session.MouseDown | App.tsx:118-123 | the resize flag is raised |
| App.Session.MouseUp | App.tsx:134-138 | the resize flag is lowered |
| Panels.CorrectUrl | components/AIPanels.tsx:303-310 | nothing for an empty field; otherwise a trimmed address with an `http://` or `https://` scheme, the trimmed input itself when it has one |
| Panels.CorrectUrlIdempotent | components/AIPanels.tsx:305-308 | correcting a corrected address changes nothing |
| Panels.WhitespaceOnlyLoadsBareScheme | components/AIPanels.tsx:304-308 | a field of only whitespace loads `https://` |
| Panels.UpperCaseSchemeIsKept | components/AIPanels.tsx:306 | the scheme test ignores letter case |
| Panels.IsBookmarked | components/AIPanels.tsx:282 | true exactly when some bookmark's address equals the current one |
| Panels.SearchPanel.Search | components/AIPanels.tsx:15-22 | an empty query does nothing; otherwise the search result is shown |
| Panels.IsGenuineSummary | components/AIPanels.tsx:93 | a result marked `Error:` or the bare "no text" sentinel is never recorded |
| Panels.PaddedSentinelIsNotGenuine | components/AIPanels.tsx:93 | the "no text" sentinel is not recorded however much whitespace surrounds it |
| Panels.GenuineExactlyWhenAnswered | components/AIPanels.tsx:93 | a result is recorded only if a request was sent and answered, and the answer itself is not marked or the sentinel |
| Panels.SummaryId | components/AIPanels.tsx:95 | the id is `sum-` followed by the decimal spelling of the time, with no leading zero |
| Panels.RecordSummary | components/AIPanels.tsx:93-101 | a genuine result goes in front as a new record, and the list is cut to 50; anything else leaves the history alone |
| Panels.RecordSummaryKeepsCap | components/AIPanels.tsx:100 | a history of at most 50 records stays within 50 |
| Panels.SummaryItemRoundTrip | components/AIPanels.tsx:60-65 | a stored record is read back as it was |
| Panels.ReadStoredHistory | components/AIPanels.tsx:73-83 | nothing stored or empty text restores nothing; text that does not parse, and only that, is reported for removal; parsed records that decode are restored as decoded, and anything else parsed is the wrong shape |
| Panels.StoredHistoryRoundTrip | components/AIPanels.tsx:73-102 | a history the panel wrote is restored whole on the next mount |
| Panels.SummarizerPanel.constructor | components/AIPanels.tsx:67-83 | mounting restores the stored history, or removes the entry when it does not parse |
| Panels.SummarizerPanel.Summarize | components/AIPanels.tsx:85-104 | an empty field does nothing; otherwise exactly the summarize call's result and request, the history rule applied, and storage written only for a genuine result |
| Panels.SummarizerPanel.Record | components/AIPanels.tsx:93-103 | the history rule applied, and the new history written to storage exactly when the shown result is genuine |
| Panels.SummarizerPanel.SelectHistory | components/AIPanels.tsx:106-109 | a past record's text and summary are shown again |
| Panels.SummarizerPanel.ClearHistory | components/AIPanels.tsx:111-114 | the history is empty and its stored entry removed |
| Panels.ThemeGeneratorPanel.Generate | components/AIPanels.tsx:184-195 | with the corrected check: an empty prompt does nothing; otherwise either a complete theme is handed on and the error cleared, or the error message is set, never both |
| Json.EncodedArrayIsStorable | App.tsx:54-68 | an array of storable encodings is storable |
| Json.ArrayRoundTrip | App.tsx:21-29 | an encoded array decodes to its elements when each element round-trips |
| Storage.LocalStorage.GetItem | App.tsx:17 | the stored string, or null for a missing key |

## Left out

- Loading flags and intermediate states. The flags are `isLoading` and the viewport's spinner. The intermediate states are the cleared response or summary shown while a request is in flight. Each handler is one atomic step to its final state.
- Asynchrony. This covers overlapping requests, where the last response to arrive wins, and the stale `bookmarks` closure that `handleAddBookmark` reads. The model applies handlers one at a time, so the closure always sees the current list.
- Failures when writing to storage, such as a full quota. Writes always succeed in the model.
- A host key from which no client can be built. The module-level fallback client is assumed to be built whenever the host key is non-empty.
- The request configuration. `Request.structured` stands for the JSON response type and schema that are attached to theme requests. The prompt templates are in `Gemini.PromptText` and are not reasoned about further.
- The SDK, the network, the DOM, `style.setProperty` (the model returns the token record instead), the iframe, event-listener registration, `setTimeout` and the settings panel's save message. All JSX markup is left out, as are the help and bookmarks panel layouts and the button labels.
- Panel lifetime. React resets a panel's state when another side panel is chosen. The panels are modelled as separate objects that live as long as they are used.
- The viewport's own input field (kept in sync with the current address) and its history drop-down. Choosing an entry from the drop-down is `Session.ChangeUrl`.
- App.LoadList: a stored value that parses but is not an array of bookmarks (or of strings) gives an empty list. The code puts whatever was parsed into state.
- Panels.ReadStoredHistory: likewise, a parsed value that is not an array of history records restores nothing (`WrongShape`). The code puts it into state.
- Panels.SummarizerPanel.Summarize: the record's id and timestamp both come from one `now`. The code reads the clock twice.
- Text: strings are sequences of Unicode scalar values, not UTF-16 code units. Pointer and layout positions are integers, not fractional numbers.
- Text.ParseIntHex models `parseInt(_, 16)` on the inputs it sees here: whitespace, a sign, an optional `0x` and hex digits. Other `parseInt` behaviour is not modelled.
- Text.FormatNumber prints whole numbers and NaN only. It does not model general number formatting.
- Gemini.GenerateTheme applies the corrected colour check (see "## Findings"), and it is what the panel and the shell use. The written check is modelled beside it as `Gemini.GenerateThemeAsWritten`.
- Panels.ThemeGeneratorPanel.Generate hands on only themes that pass the corrected check. So `App.Session.ApplyTheme` never receives the non-string colours that the written check lets through.
- Json.RoundTrips asks for a round trip only on values whose numbers are whole. Fractional numbers are never stored by the navigator.
- Text.ParseIntHex states the value for inputs of one or two hex digits, which is what the theme effect passes. Longer inputs, and signs or prefixes in front of the digits, are computed but not described in the contract.

## Findings

| source | as written | input that shows it | evidently intended | confidence | as-written member | corrected member |
|---|---|---|---|---|---|---|
| services/geminiService.ts:99-101 | the four theme members are only tested for truthiness, then the parsed object is returned as a Theme | a reply `{"primaryColor":1,"accentColor":true,"textColor":[],"backgroundColor":{}}` is accepted, and `App.tsx:79` then calls `.replace` on a number | accept only when all four members are non-empty strings | medium, not executed | Gemini.WrittenCheckAcceptsNonStringColours | Gemini.ThemeFromObject |
