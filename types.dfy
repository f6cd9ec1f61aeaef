/** The navigator's shared data types: a colour theme, a bookmark, and the panels the shell can show. */
module Types {
  import opened Text

  /** Four colour strings, each documented as `#rrggbb` but not constrained by the type. */
  datatype Theme = Theme(primaryColor: string, accentColor: string, textColor: string, backgroundColor: string)

  /** A saved page; the id is `bm-` followed by the creation time in milliseconds. */
  datatype Bookmark = Bookmark(id: string, url: string)

  datatype PanelType = SEARCH | SUMMARIZE | THEME | HELP | VIEWPORT | SETTINGS | BOOKMARKS

  /** Every panel type, once each, in declaration order. */
  function AllPanelTypes(): (r: seq<PanelType>)
    ensures |r| == 7
    ensures forall p: PanelType :: p in r
    ensures forall i, j :: 0 <= i < j < |r| ==> r[i] != r[j]
  {
    var r := [SEARCH, SUMMARIZE, THEME, HELP, VIEWPORT, SETTINGS, BOOKMARKS];
    assert forall p: PanelType :: p in r by {
      forall p: PanelType ensures p in r {
        if p.SEARCH? { assert r[0] == p; }
        else if p.SUMMARIZE? { assert r[1] == p; }
        else if p.THEME? { assert r[2] == p; }
        else if p.HELP? { assert r[3] == p; }
        else if p.VIEWPORT? { assert r[4] == p; }
        else if p.SETTINGS? { assert r[5] == p; }
        else { assert r[6] == p; }
      }
    }
    r
  }

  /** The viewport is always on screen; every other panel is picked with a button. */
  predicate IsSelectable(p: PanelType) {
    p != VIEWPORT
  }

  /** The documented colour format: `#` followed by six hex digits. */
  predicate IsHexColor(s: string) {
    && |s| == 7 && s[0] == '#'
    && IsHexDigit(s[1]) && IsHexDigit(s[2]) && IsHexDigit(s[3])
    && IsHexDigit(s[4]) && IsHexDigit(s[5]) && IsHexDigit(s[6])
  }

  /** A theme that may be applied: all four colours present and non-empty. */
  predicate IsCompleteTheme(t: Theme) {
    t.primaryColor != "" && t.accentColor != "" && t.textColor != "" && t.backgroundColor != ""
  }
}
