/**
 * The shell component: the session state it owns (theme, active side
 * panel, session API key, viewport address, bookmarks, visited-address
 * history, sidebar width and the resize flag), the rules its handlers apply
 * to that state, and the effects that copy the key, the bookmarks and the
 * history into the page's storage after every change.
 */
module App {
  import opened Maybe
  import opened Text
  import opened Json
  import opened Lists
  import opened Storage
  import opened Types
  import opened ThemeTokens
  import opened Panels

  const ApiKeyKey := "cyber-navigator-apikey"
  const BookmarksKey := "cyber-navigator-bookmarks"
  const HistoryKey := "cyber-navigator-history"

  const HistoryCap: nat := 50
  const MinSidebarWidth := 350
  /** The room the drag always leaves for the viewport. */
  const ViewportReserve := 400
  const InitialSidebarWidth := 450
  const InitialUrl := "https://www.google.com/webhp?igu=1"
  const DefaultTheme := Theme("#03d8f3", "#fcee0c", "#e0e0e0", "#1a1a2e")

  // ---------------------------------------------------------------------
  // Visited-address history
  // ---------------------------------------------------------------------

  /**
   * `handleUrlChange`'s history update: an address already at the front is
   * not repeated; any other goes in front and only the 50 newest are kept.
   */
  function PushHistory(history: seq<string>, url: string): (r: seq<string>)
    ensures |r| > 0 && r[0] == url
    ensures r == history <==> |history| > 0 && history[0] == url
    ensures r != history ==> |r| == Min(|history| + 1, HistoryCap) && r[1..] == history[..|r| - 1]
  {
    if |history| > 0 && history[0] == url then history
    else PrependCapped(url, history, HistoryCap)
  }

  /** No address is listed twice in a row. */
  predicate NoAdjacentRepeats(history: seq<string>) {
    forall i :: 0 < i < |history| ==> history[i - 1] != history[i]
  }

  lemma PushHistoryKeepsNoAdjacentRepeats(history: seq<string>, url: string)
    requires NoAdjacentRepeats(history)
    ensures NoAdjacentRepeats(PushHistory(history, url))
  {
    var r := PushHistory(history, url);
    if r != history {
      forall i | 1 < i < |r| ensures r[i - 1] != r[i] {
        assert r[i - 1] == r[1..][i - 2] == history[i - 2];
        assert r[i] == r[1..][i - 1] == history[i - 1];
      }
      if |r| > 1 {
        assert r[1] == r[1..][0] == history[0];
      }
    }
  }

  /** The history after visiting each of `urls` in turn; after at least one visit it starts with the last address visited. */
  function VisitAll(history: seq<string>, urls: seq<string>): (r: seq<string>)
    ensures |urls| > 0 ==> |r| > 0 && r[0] == urls[|urls| - 1]
    decreases |urls|
  {
    if |urls| == 0 then history
    else
      var r := VisitAll(PushHistory(history, urls[0]), urls[1..]);
      assert |urls| > 1 ==> urls[1..][|urls[1..]| - 1] == urls[|urls| - 1];
      r
  }

  /**
   * Over any run of visits from a history of at most 50 addresses with no
   * repeat in a row, the history stays within 50 and never gains a repeat
   * in a row.
   */
  lemma {:induction false} VisitAllKeepsHistoryShape(history: seq<string>, urls: seq<string>)
    requires |history| <= HistoryCap && NoAdjacentRepeats(history)
    ensures |VisitAll(history, urls)| <= HistoryCap
    ensures NoAdjacentRepeats(VisitAll(history, urls))
    decreases |urls|
  {
    if |urls| > 0 {
      PushHistoryKeepsNoAdjacentRepeats(history, urls[0]);
      VisitAllKeepsHistoryShape(PushHistory(history, urls[0]), urls[1..]);
    }
  }

  // ---------------------------------------------------------------------
  // Bookmarks
  // ---------------------------------------------------------------------

  /** `bm-` and the creation time in milliseconds. */
  function BookmarkId(now: nat): (r: string)
    ensures StartsWith(r, "bm-") && IsDecimal(r[3..]) && DecimalValue(r[3..]) == now
    ensures |r| > 4 ==> r[3] != '0'
  {
    NatToDecimalRoundTrip(now);
    assert ("bm-" + NatToDecimal(now))[3..] == NatToDecimal(now);
    "bm-" + NatToDecimal(now)
  }

  /** No address is bookmarked twice. */
  predicate UniqueUrls(bookmarks: seq<Bookmark>) {
    forall i, j :: 0 <= i < j < |bookmarks| ==> bookmarks[i].url != bookmarks[j].url
  }

  /** The bookmarked addresses. */
  function Urls(bookmarks: seq<Bookmark>): set<string> {
    set i | 0 <= i < |bookmarks| :: bookmarks[i].url
  }

  /** `bookmarks.filter(b => b.url !== url)`. */
  function WithoutUrl(bookmarks: seq<Bookmark>, url: string): (r: seq<Bookmark>)
    ensures !IsBookmarked(r, url)
    ensures forall b :: b in r ==> b in bookmarks
    ensures forall i :: 0 <= i < |bookmarks| && bookmarks[i].url != url ==> bookmarks[i] in r
  {
    Filter(bookmarks, (b: Bookmark) => b.url != url)
  }

  /**
   * `handleAddBookmark`: a blank address changes nothing; a bookmarked one
   * is removed wherever it occurs; any other is added in front with an id
   * made from `now`.
   */
  function Toggled(bookmarks: seq<Bookmark>, url: string, now: nat): (r: seq<Bookmark>)
    ensures Trim(url) == "" ==> r == bookmarks
    ensures Trim(url) != "" ==> (IsBookmarked(r, url) <==> !IsBookmarked(bookmarks, url))
    ensures Trim(url) != "" && IsBookmarked(bookmarks, url) ==> r == WithoutUrl(bookmarks, url)
    ensures Trim(url) != "" && !IsBookmarked(bookmarks, url) ==> r == [Bookmark(BookmarkId(now), url)] + bookmarks
  {
    if Trim(url) == "" then bookmarks
    else if IsBookmarked(bookmarks, url) then WithoutUrl(bookmarks, url)
    else
      var r := [Bookmark(BookmarkId(now), url)] + bookmarks;
      assert r[0].url == url;
      r
  }

  lemma {:induction false} WithoutUrlKeepsUniqueUrls(bookmarks: seq<Bookmark>, url: string)
    requires UniqueUrls(bookmarks)
    ensures UniqueUrls(WithoutUrl(bookmarks, url))
  {
    if |bookmarks| > 0 {
      var rest := bookmarks[1..];
      assert UniqueUrls(rest) by {
        forall i, j | 0 <= i < j < |rest| ensures rest[i].url != rest[j].url {
          assert rest[i] == bookmarks[i + 1] && rest[j] == bookmarks[j + 1];
        }
      }
      WithoutUrlKeepsUniqueUrls(rest, url);
      assert WithoutUrl(bookmarks, url) == (if bookmarks[0].url != url then [bookmarks[0]] else []) + WithoutUrl(rest, url);
      if bookmarks[0].url != url {
        var r := WithoutUrl(bookmarks, url);
        forall j | 0 < j < |r| ensures r[0].url != r[j].url {
          assert r[j] == WithoutUrl(rest, url)[j - 1];
          assert r[j] in rest;
          var k :| 0 <= k < |rest| && rest[k] == r[j];
          assert rest[k] == bookmarks[k + 1];
        }
      }
    }
  }

  /** Toggling never lets an address be bookmarked twice. */
  lemma ToggledKeepsUniqueUrls(bookmarks: seq<Bookmark>, url: string, now: nat)
    requires UniqueUrls(bookmarks)
    ensures UniqueUrls(Toggled(bookmarks, url, now))
  {
    if Trim(url) != "" {
      if IsBookmarked(bookmarks, url) {
        WithoutUrlKeepsUniqueUrls(bookmarks, url);
      } else {
        PrependKeepsUniqueUrls(Bookmark(BookmarkId(now), url), bookmarks);
      }
    }
  }

  lemma PrependKeepsUniqueUrls(b: Bookmark, bookmarks: seq<Bookmark>)
    requires UniqueUrls(bookmarks) && !IsBookmarked(bookmarks, b.url)
    ensures UniqueUrls([b] + bookmarks)
  {
    var r := [b] + bookmarks;
    forall i, j | 0 <= i < j < |r| ensures r[i].url != r[j].url {
      if i == 0 {
        assert r[j] == bookmarks[j - 1];
      } else {
        assert r[i] == bookmarks[i - 1] && r[j] == bookmarks[j - 1];
      }
    }
  }

  lemma UrlsOfWithoutUrl(bookmarks: seq<Bookmark>, url: string)
    ensures Urls(WithoutUrl(bookmarks, url)) == Urls(bookmarks) - {url}
  {
    var r := WithoutUrl(bookmarks, url);
    forall u | u in Urls(r) ensures u in Urls(bookmarks) - {url} {
      var i :| 0 <= i < |r| && r[i].url == u;
      assert r[i] in bookmarks;
    }
    forall u | u in Urls(bookmarks) - {url} ensures u in Urls(r) {
      var i :| 0 <= i < |bookmarks| && bookmarks[i].url == u;
      var k :| 0 <= k < |r| && r[k] == bookmarks[i];
    }
  }

  lemma UrlsOfPrepend(b: Bookmark, bookmarks: seq<Bookmark>)
    ensures Urls([b] + bookmarks) == {b.url} + Urls(bookmarks)
  {
    var r := [b] + bookmarks;
    assert r[0] == b;
    assert forall i :: 0 < i < |r| ==> r[i] == bookmarks[i - 1];
    forall u | u in Urls(bookmarks) ensures u in Urls(r) {
      var i :| 0 <= i < |bookmarks| && bookmarks[i].url == u;
      assert r[i + 1] == bookmarks[i];
    }
  }

  lemma BookmarkedIffListed(bookmarks: seq<Bookmark>, url: string)
    ensures IsBookmarked(bookmarks, url) <==> url in Urls(bookmarks)
  {
    if url in Urls(bookmarks) {
      var i :| 0 <= i < |bookmarks| && bookmarks[i].url == url;
    }
  }

  /** Toggling the same address twice restores the set of bookmarked addresses. */
  lemma ToggleTwiceRestoresUrls(bookmarks: seq<Bookmark>, url: string, first: nat, second: nat)
    ensures Urls(Toggled(Toggled(bookmarks, url, first), url, second)) == Urls(bookmarks)
  {
    if Trim(url) != "" {
      var once := Toggled(bookmarks, url, first);
      BookmarkedIffListed(bookmarks, url);
      if IsBookmarked(bookmarks, url) {
        UrlsOfWithoutUrl(bookmarks, url);
        UrlsOfPrepend(Bookmark(BookmarkId(second), url), once);
      } else {
        UrlsOfPrepend(Bookmark(BookmarkId(first), url), bookmarks);
        UrlsOfWithoutUrl(once, url);
      }
    }
  }

  /** Adding an address and toggling it off again gives back exactly the old list. */
  lemma {:induction false} ToggleTwiceRestoresNewUrl(bookmarks: seq<Bookmark>, url: string, first: nat, second: nat)
    requires Trim(url) != "" && !IsBookmarked(bookmarks, url)
    ensures Toggled(Toggled(bookmarks, url, first), url, second) == bookmarks
  {
    var added := Bookmark(BookmarkId(first), url);
    FilterAppend([added], bookmarks, (b: Bookmark) => b.url != url);
    FilterKeepsAll(bookmarks, (b: Bookmark) => b.url != url);
  }

  /** Removing an address distributes over the list: the bookmarks that stay keep their order. */
  lemma WithoutUrlKeepsOrder(front: seq<Bookmark>, back: seq<Bookmark>, url: string)
    ensures WithoutUrl(front + back, url) == WithoutUrl(front, url) + WithoutUrl(back, url)
  {
    FilterAppend(front, back, (b: Bookmark) => b.url != url);
  }

  /** `handleDeleteBookmark`: every bookmark with this id goes, the others stay. */
  function Deleted(bookmarks: seq<Bookmark>, id: string): (r: seq<Bookmark>)
    ensures forall b :: b in r ==> b in bookmarks && b.id != id
    ensures forall i :: 0 <= i < |bookmarks| && bookmarks[i].id != id ==> bookmarks[i] in r
  {
    Filter(bookmarks, (b: Bookmark) => b.id != id)
  }

  /** Deleting distributes over the list: the bookmarks that stay keep their order. */
  lemma DeletedKeepsOrder(front: seq<Bookmark>, back: seq<Bookmark>, id: string)
    ensures Deleted(front + back, id) == Deleted(front, id) + Deleted(back, id)
  {
    FilterAppend(front, back, (b: Bookmark) => b.id != id);
  }

  /** Deleting an id no bookmark has changes nothing. */
  lemma DeleteUnknownIdChangesNothing(bookmarks: seq<Bookmark>, id: string)
    requires forall i :: 0 <= i < |bookmarks| ==> bookmarks[i].id != id
    ensures Deleted(bookmarks, id) == bookmarks
  {
    FilterKeepsAll(bookmarks, (b: Bookmark) => b.id != id);
  }

  // ---------------------------------------------------------------------
  // Sidebar width
  // ---------------------------------------------------------------------

  /** Where the page puts the panel row: its left edge and its width, in pixels. */
  datatype Container = Container(offsetLeft: int, offsetWidth: int)

  /** The width a drag to `pointerX` asks for, kept at least 350 and, room permitting, 400 short of the container. */
  function SidebarWidth(pointerX: int, c: Container): (w: int)
    ensures w >= MinSidebarWidth
    ensures w == MinSidebarWidth || w == pointerX - c.offsetLeft || w == c.offsetWidth - ViewportReserve
    ensures c.offsetWidth - ViewportReserve >= MinSidebarWidth ==> w <= c.offsetWidth - ViewportReserve
    ensures w > MinSidebarWidth ==> w <= pointerX - c.offsetLeft
    ensures MinSidebarWidth <= pointerX - c.offsetLeft <= c.offsetWidth - ViewportReserve ==> w == pointerX - c.offsetLeft
    ensures MinSidebarWidth <= c.offsetWidth - ViewportReserve <= pointerX - c.offsetLeft ==> w == c.offsetWidth - ViewportReserve
    ensures c.offsetWidth - ViewportReserve < MinSidebarWidth ==> w == MinSidebarWidth
    ensures pointerX - c.offsetLeft < MinSidebarWidth ==> w == MinSidebarWidth
  {
    var wanted := pointerX - c.offsetLeft;
    var widest := c.offsetWidth - ViewportReserve;
    var narrowed := if wanted < widest then wanted else widest;
    if MinSidebarWidth < narrowed then narrowed else MinSidebarWidth
  }

  /** In a container narrower than 750 pixels the sidebar is always 350 wide. */
  lemma NarrowContainerPinsMinimum(pointerX: int, c: Container)
    requires c.offsetWidth < MinSidebarWidth + ViewportReserve
    ensures SidebarWidth(pointerX, c) == MinSidebarWidth
  {
  }

  lemma SidebarWidthExamples()
    ensures SidebarWidth(500, Container(100, 900)) == 400
    ensures SidebarWidth(50, Container(100, 900)) == 350
  {
  }

  // ---------------------------------------------------------------------
  // Side panels
  // ---------------------------------------------------------------------

  /** The selector buttons, in display order: every panel but the viewport, once each. */
  function SidePanelButtons(): (r: seq<PanelType>)
    ensures |r| == 6
    ensures forall p :: p in r <==> IsSelectable(p)
    ensures forall i, j :: 0 <= i < j < |r| ==> r[i] != r[j]
  {
    var r := [SEARCH, SUMMARIZE, THEME, BOOKMARKS, SETTINGS, HELP];
    assert forall p :: IsSelectable(p) ==> p in r by {
      forall p | IsSelectable(p) ensures p in r {
        if p.SEARCH? { assert r[0] == p; }
        else if p.SUMMARIZE? { assert r[1] == p; }
        else if p.THEME? { assert r[2] == p; }
        else if p.BOOKMARKS? { assert r[3] == p; }
        else if p.SETTINGS? { assert r[4] == p; }
        else { assert r[5] == p; }
      }
    }
    r
  }

  /** The panel drawn in the sidebar: the chosen one, or the search panel for any other value. */
  function RenderedPanel(active: PanelType): (r: PanelType)
    ensures IsSelectable(r)
    ensures IsSelectable(active) ==> r == active
    ensures !IsSelectable(active) ==> r == SEARCH
  {
    match active
    case SEARCH => SEARCH
    case SUMMARIZE => SUMMARIZE
    case THEME => THEME
    case BOOKMARKS => BOOKMARKS
    case SETTINGS => SETTINGS
    case HELP => HELP
    case VIEWPORT => SEARCH
  }

  // ---------------------------------------------------------------------
  // What is kept in storage
  // ---------------------------------------------------------------------

  function StoredAt(entries: map<string, string>, key: string): (r: Option<string>)
    ensures r.Some? <==> key in entries
    ensures r.Some? ==> r.value == entries[key]
  {
    if key in entries then Some(entries[key]) else None
  }

  /** The initial session key: the stored one, or "" when there is none. */
  function StoredApiKey(entries: map<string, string>): (r: string)
    ensures ApiKeyKey in entries ==> r == entries[ApiKeyKey]
    ensures ApiKeyKey !in entries ==> r == ""
  {
    match StoredAt(entries, ApiKeyKey)
    case Some(key) => key
    case None => ""
  }

  /** The credential effect: a non-empty key is written, an empty one removes the entry. Nothing else is touched. */
  function PersistApiKey(entries: map<string, string>, key: string): (r: map<string, string>)
    ensures key != "" ==> ApiKeyKey in r && r[ApiKeyKey] == key
    ensures key == "" ==> ApiKeyKey !in r
    ensures forall k :: k != ApiKeyKey ==> (k in r <==> k in entries)
    ensures forall k :: k != ApiKeyKey && k in r ==> r[k] == entries[k]
  {
    if key != "" then entries[ApiKeyKey := key] else entries - {ApiKeyKey}
  }

  /** A key the effect stored is the key the next visit starts with. */
  lemma ApiKeyRoundTrip(entries: map<string, string>, key: string)
    ensures StoredApiKey(PersistApiKey(entries, key)) == key
  {
  }

  function EncodeBookmark(b: Bookmark): Json {
    JObject(map["id" := JString(b.id), "url" := JString(b.url)])
  }

  function DecodeBookmark(v: Json): (r: Option<Bookmark>)
    ensures r.Some? ==> StringMember(v, "id") == Some(r.value.id) && StringMember(v, "url") == Some(r.value.url)
  {
    match (StringMember(v, "id"), StringMember(v, "url"))
    case (Some(id), Some(url)) => Some(Bookmark(id, url))
    case _ => None
  }

  function EncodeUrl(url: string): Json {
    JString(url)
  }

  function DecodeUrl(v: Json): (r: Option<string>)
    ensures r.Some? <==> v.JString?
  {
    match v
    case JString(s) => Some(s)
    case _ => None
  }

  function EncodeBookmarks(bookmarks: seq<Bookmark>): Json {
    JArray(EncodeArray(bookmarks, EncodeBookmark))
  }

  function EncodeHistory(history: seq<string>): Json {
    JArray(EncodeArray(history, EncodeUrl))
  }

  /**
   * The initial bookmarks or history: the stored array, or an empty list
   * when nothing is stored, the stored text is empty or it does not parse.
   */
  function LoadList<T>(stored: Option<string>, codec: Codec, decode: Json -> Option<T>): (r: seq<T>)
    ensures stored.None? || stored == Some("") ==> r == []
    ensures stored.Some? && stored.value != "" && codec.parse(stored.value).None? ==> r == []
    ensures r != [] ==> && stored.Some? && codec.parse(stored.value).Some? && codec.parse(stored.value).value.JArray?
                        && DecodeArray(codec.parse(stored.value).value.items, decode) == Some(r)
    ensures stored.Some? && stored.value != "" && codec.parse(stored.value).Some? && codec.parse(stored.value).value.JArray?
            && DecodeArray(codec.parse(stored.value).value.items, decode).Some?
            ==> r == DecodeArray(codec.parse(stored.value).value.items, decode).value
  {
    match stored
    case None => []
    case Some(text) =>
      if text == "" then []
      else match codec.parse(text)
        case None => []
        case Some(JArray(items)) =>
          (match DecodeArray(items, decode)
           case Some(xs) => xs
           case None => [])
        case Some(_) => []
  }

  /** The bookmarks the shell starts with: the array stored under the bookmarks key, decoded, or none. */
  function LoadBookmarks(entries: map<string, string>, codec: Codec): (r: seq<Bookmark>)
    ensures BookmarksKey !in entries || entries[BookmarksKey] == "" ==> r == []
    ensures BookmarksKey in entries && codec.parse(entries[BookmarksKey]).None? ==> r == []
    ensures BookmarksKey in entries && entries[BookmarksKey] != "" && codec.parse(entries[BookmarksKey]).Some?
            && codec.parse(entries[BookmarksKey]).value.JArray?
            && DecodeArray(codec.parse(entries[BookmarksKey]).value.items, DecodeBookmark).Some?
            ==> r == DecodeArray(codec.parse(entries[BookmarksKey]).value.items, DecodeBookmark).value
  {
    LoadList(StoredAt(entries, BookmarksKey), codec, DecodeBookmark)
  }

  /** The history the shell starts with: the array stored under the history key, decoded, or none. */
  function LoadHistory(entries: map<string, string>, codec: Codec): (r: seq<string>)
    ensures HistoryKey !in entries || entries[HistoryKey] == "" ==> r == []
    ensures HistoryKey in entries && codec.parse(entries[HistoryKey]).None? ==> r == []
    ensures HistoryKey in entries && entries[HistoryKey] != "" && codec.parse(entries[HistoryKey]).Some?
            && codec.parse(entries[HistoryKey]).value.JArray?
            && DecodeArray(codec.parse(entries[HistoryKey]).value.items, DecodeUrl).Some?
            ==> r == DecodeArray(codec.parse(entries[HistoryKey]).value.items, DecodeUrl).value
  {
    LoadList(StoredAt(entries, HistoryKey), codec, DecodeUrl)
  }

  /** Storage holds exactly what the three persistence effects write for this key, bookmark list and history. */
  ghost predicate Mirrors(entries: map<string, string>, codec: Codec, key: string, bookmarks: seq<Bookmark>, history: seq<string>) {
    && (key == "" ==> ApiKeyKey !in entries)
    && (key != "" ==> ApiKeyKey in entries && entries[ApiKeyKey] == key)
    && BookmarksKey in entries && entries[BookmarksKey] == codec.stringify(EncodeBookmarks(bookmarks))
    && HistoryKey in entries && entries[HistoryKey] == codec.stringify(EncodeHistory(history))
  }

  lemma BookmarkRoundTrip(b: Bookmark)
    ensures Storable(EncodeBookmark(b))
    ensures DecodeBookmark(EncodeBookmark(b)) == Some(b)
  {
  }

  /** A list the effects stored is the list the next visit starts with. */
  lemma LoadListRoundTrip<T>(xs: seq<T>, codec: Codec, encode: T -> Json, decode: Json -> Option<T>)
    requires RoundTrips(codec)
    requires forall x :: Storable(encode(x)) && decode(encode(x)) == Some(x)
    ensures LoadList(Some(codec.stringify(JArray(EncodeArray(xs, encode)))), codec, decode) == xs
  {
    EncodedArrayIsStorable(xs, encode);
    ArrayRoundTrip(xs, encode, decode);
  }

  /** A new visit restores the key, the bookmarks and the history the last one left in storage. */
  lemma ReloadRestoresSession(entries: map<string, string>, codec: Codec, key: string, bookmarks: seq<Bookmark>, history: seq<string>)
    requires RoundTrips(codec) && Mirrors(entries, codec, key, bookmarks, history)
    ensures StoredApiKey(entries) == key
    ensures LoadBookmarks(entries, codec) == bookmarks
    ensures LoadHistory(entries, codec) == history
  {
    forall b ensures Storable(EncodeBookmark(b)) && DecodeBookmark(EncodeBookmark(b)) == Some(b) {
      BookmarkRoundTrip(b);
    }
    LoadListRoundTrip(bookmarks, codec, EncodeBookmark, DecodeBookmark);
    LoadListRoundTrip(history, codec, EncodeUrl, DecodeUrl);
  }

  // ---------------------------------------------------------------------
  // The session
  // ---------------------------------------------------------------------

  /** The shell's state, and the page's storage its effects write to. */
  class Session {
    var theme: Theme
    var activePanel: PanelType
    var sessionApiKey: string
    var viewportUrl: string
    var bookmarks: seq<Bookmark>
    var history: seq<string>
    var sidebarWidth: int
    var isResizing: bool
    const storage: LocalStorage
    const codec: Codec

    /** The sidebar is never narrower than 350, a selector panel is active, and storage mirrors the session. */
    ghost predicate Valid()
      reads this, storage
    {
      && sidebarWidth >= MinSidebarWidth
      && IsSelectable(activePanel)
      && Mirrors(storage.entries, codec, sessionApiKey, bookmarks, history)
    }

    /** The style variables the theme effect sets for the current theme. */
    function CurrentTokens(): (m: StyleTokens)
      reads this
      ensures m.primary == theme.primaryColor && m.background == theme.backgroundColor
    {
      Tokens(theme)
    }

    /** Mounting: state read back from storage, then the three persistence effects run once. */
    constructor (storage: LocalStorage, codec: Codec)
      modifies storage
      ensures Valid()
      ensures this.storage == storage && this.codec == codec
      ensures theme == DefaultTheme && activePanel == SEARCH && viewportUrl == InitialUrl
      ensures sidebarWidth == InitialSidebarWidth && !isResizing
      ensures sessionApiKey == StoredApiKey(old(storage.entries))
      ensures bookmarks == LoadBookmarks(old(storage.entries), codec)
      ensures history == LoadHistory(old(storage.entries), codec)
      ensures storage.entries == PersistApiKey(old(storage.entries), sessionApiKey)
                                   [BookmarksKey := codec.stringify(EncodeBookmarks(bookmarks))]
                                   [HistoryKey := codec.stringify(EncodeHistory(history))]
    {
      this.storage := storage;
      this.codec := codec;
      theme := DefaultTheme;
      activePanel := SEARCH;
      sessionApiKey := StoredApiKey(storage.entries);
      viewportUrl := InitialUrl;
      bookmarks := LoadBookmarks(storage.entries, codec);
      history := LoadHistory(storage.entries, codec);
      sidebarWidth := InitialSidebarWidth;
      isResizing := false;
      new;
      if sessionApiKey != "" {
        storage.SetItem(ApiKeyKey, sessionApiKey);
      } else {
        storage.RemoveItem(ApiKeyKey);
      }
      storage.SetItem(BookmarksKey, codec.stringify(EncodeBookmarks(bookmarks)));
      storage.SetItem(HistoryKey, codec.stringify(EncodeHistory(history)));
    }

    /**
     * `handleUrlChange`: the viewport shows `url` and the history is
     * updated; the history effect writes it only when it changed.
     */
    method ChangeUrl(url: string)
      requires Valid()
      modifies this, storage
      ensures Valid()
      ensures viewportUrl == url && history == PushHistory(old(history), url)
      ensures storage.entries == if history == old(history) then old(storage.entries)
                                 else old(storage.entries)[HistoryKey := codec.stringify(EncodeHistory(history))]
      ensures theme == old(theme) && activePanel == old(activePanel) && sessionApiKey == old(sessionApiKey)
      ensures bookmarks == old(bookmarks) && sidebarWidth == old(sidebarWidth) && isResizing == old(isResizing)
    {
      viewportUrl := url;
      var updated := PushHistory(history, url);
      if updated != history {
        history := updated;
        storage.SetItem(HistoryKey, codec.stringify(EncodeHistory(history)));
      }
    }

    /** The viewport's Load button: the corrected address is visited; an empty field does nothing. */
    method LoadUrl(input: string)
      requires Valid()
      modifies this, storage
      ensures Valid()
      ensures CorrectUrl(input).None? ==> viewportUrl == old(viewportUrl) && history == old(history)
                                          && storage.entries == old(storage.entries)
      ensures CorrectUrl(input).Some? ==> viewportUrl == CorrectUrl(input).value
                                          && history == PushHistory(old(history), CorrectUrl(input).value)
      ensures storage.entries == if history == old(history) then old(storage.entries)
                                 else old(storage.entries)[HistoryKey := codec.stringify(EncodeHistory(history))]
      ensures theme == old(theme) && activePanel == old(activePanel) && sessionApiKey == old(sessionApiKey)
      ensures bookmarks == old(bookmarks) && sidebarWidth == old(sidebarWidth) && isResizing == old(isResizing)
    {
      match CorrectUrl(input)
      case Some(url) => ChangeUrl(url);
      case None =>
    }

    /** `handleAddBookmark`: the toggle, then the bookmark effect, unless the address was blank. */
    method AddBookmark(url: string, now: nat)
      requires Valid()
      modifies this, storage
      ensures Valid()
      ensures bookmarks == Toggled(old(bookmarks), url, now)
      ensures Trim(url) == "" ==> storage.entries == old(storage.entries)
      ensures Trim(url) != "" ==> storage.entries == old(storage.entries)[BookmarksKey := codec.stringify(EncodeBookmarks(bookmarks))]
      ensures theme == old(theme) && activePanel == old(activePanel) && sessionApiKey == old(sessionApiKey)
      ensures viewportUrl == old(viewportUrl) && history == old(history)
      ensures sidebarWidth == old(sidebarWidth) && isResizing == old(isResizing)
    {
      if Trim(url) == "" {
        return;
      }
      bookmarks := Toggled(bookmarks, url, now);
      storage.SetItem(BookmarksKey, codec.stringify(EncodeBookmarks(bookmarks)));
    }

    /** `handleDeleteBookmark`, then the bookmark effect (the filter always makes a new list). */
    method DeleteBookmark(id: string)
      requires Valid()
      modifies this, storage
      ensures Valid()
      ensures bookmarks == Deleted(old(bookmarks), id)
      ensures storage.entries == old(storage.entries)[BookmarksKey := codec.stringify(EncodeBookmarks(bookmarks))]
      ensures theme == old(theme) && activePanel == old(activePanel) && sessionApiKey == old(sessionApiKey)
      ensures viewportUrl == old(viewportUrl) && history == old(history)
      ensures sidebarWidth == old(sidebarWidth) && isResizing == old(isResizing)
    {
      bookmarks := Deleted(bookmarks, id);
      storage.SetItem(BookmarksKey, codec.stringify(EncodeBookmarks(bookmarks)));
    }

    /** The settings panel's Save: the new key, and the credential effect when the key changed. */
    method SetApiKey(key: string)
      requires Valid()
      modifies this, storage
      ensures Valid()
      ensures sessionApiKey == key
      ensures storage.entries == if key == old(sessionApiKey) then old(storage.entries)
                                 else PersistApiKey(old(storage.entries), key)
      ensures theme == old(theme) && activePanel == old(activePanel) && viewportUrl == old(viewportUrl)
      ensures bookmarks == old(bookmarks) && history == old(history)
      ensures sidebarWidth == old(sidebarWidth) && isResizing == old(isResizing)
    {
      if key != sessionApiKey {
        sessionApiKey := key;
        if key != "" {
          storage.SetItem(ApiKeyKey, key);
        } else {
          storage.RemoveItem(ApiKeyKey);
        }
      }
    }

    /** `handleThemeGenerated`. */
    method ApplyTheme(t: Theme)
      requires Valid()
      modifies this
      ensures Valid()
      ensures theme == t && CurrentTokens() == Tokens(t)
      ensures activePanel == old(activePanel) && sessionApiKey == old(sessionApiKey) && viewportUrl == old(viewportUrl)
      ensures bookmarks == old(bookmarks) && history == old(history)
      ensures sidebarWidth == old(sidebarWidth) && isResizing == old(isResizing)
    {
      theme := t;
    }

    /** A selector button: only the six side panels have one. */
    method SelectPanel(p: PanelType)
      requires Valid() && IsSelectable(p)
      modifies this
      ensures Valid()
      ensures activePanel == p && RenderedPanel(activePanel) == p
      ensures theme == old(theme) && sessionApiKey == old(sessionApiKey) && viewportUrl == old(viewportUrl)
      ensures bookmarks == old(bookmarks) && history == old(history)
      ensures sidebarWidth == old(sidebarWidth) && isResizing == old(isResizing)
    {
      activePanel := p;
    }

    method MouseDown()
      requires Valid()
      modifies this`isResizing
      ensures Valid() && isResizing
    {
      isResizing := true;
    }

    /** `handleMouseMove`: while dragging, and once the container is on the page, the width follows the pointer. */
    method MouseMove(pointerX: int, container: Option<Container>)
      requires Valid()
      modifies this`sidebarWidth
      ensures Valid()
      ensures sidebarWidth == if isResizing && container.Some? then SidebarWidth(pointerX, container.value)
                              else old(sidebarWidth)
    {
      if isResizing && container.Some? {
        sidebarWidth := SidebarWidth(pointerX, container.value);
      }
    }

    method MouseUp()
      requires Valid()
      modifies this`isResizing
      ensures Valid() && !isResizing
    {
      isResizing := false;
    }
  }

  /** The default theme's border colour and translucent background. */
  lemma DefaultThemeTokens()
    ensures Tokens(DefaultTheme).border == "rgba(3, 216, 243, 0.3)"
    ensures Tokens(DefaultTheme).backgroundTransparent == "#1a1a2ed9"
  {
    DefaultBorderColor();
  }
}
