/**
 * The style variables the shell derives from the active theme: the four
 * colours themselves, a glow colour, a background with about 85% alpha
 * (`d9` appended) and a border colour `rgba(r, g, b, 0.3)` whose components
 * are read as hex pairs from the primary colour.
 */
module ThemeTokens {
  import opened Maybe
  import opened Text
  import opened Types

  /** The three components `parseInt(hex.substring(k, k + 2), 16)` reads, `hex` being the colour without its first `#`. */
  function HexComponents(primary: string): (r: (Option<int>, Option<int>, Option<int>))
    ensures r.0.Some? ==> -255 <= r.0.value <= 255
    ensures r.1.Some? ==> -255 <= r.1.value <= 255
    ensures r.2.Some? ==> -255 <= r.2.value <= 255
  {
    var hex := RemoveFirst(primary, '#');
    (ParseIntHex(Substring(hex, 0, 2)), ParseIntHex(Substring(hex, 2, 4)), ParseIntHex(Substring(hex, 4, 6)))
  }

  /** For a well-formed `#rrggbb` colour, in either case, the border colour is its three digit pairs in decimal. */
  function BorderColor(primary: string): (r: string)
    ensures IsHexColor(primary) ==>
              r == "rgba(" + NatToDecimal(16 * HexDigitValue(primary[1]) + HexDigitValue(primary[2])) + ", "
                   + NatToDecimal(16 * HexDigitValue(primary[3]) + HexDigitValue(primary[4])) + ", "
                   + NatToDecimal(16 * HexDigitValue(primary[5]) + HexDigitValue(primary[6])) + ", 0.3)"
  {
    ComponentsInDecimal(primary);
    var (r, g, b) := HexComponents(primary);
    "rgba(" + FormatNumber(r) + ", " + FormatNumber(g) + ", " + FormatNumber(b) + ", 0.3)"
  }

  function TransparentBackground(background: string): (r: string)
    ensures |r| == |background| + 2 && r[..|background|] == background
    ensures r[|background|..] == "d9"
  {
    background + "d9"
  }

  /**
   * The custom properties the theme effect sets on the document root:
   * `--primary-color`, `--accent-color`, `--text-color`, `--background-color`,
   * `--background-color-transparent`, `--glow-color` and `--border-color`.
   */
  datatype StyleTokens = StyleTokens(
    primary: string, accent: string, text: string, background: string,
    backgroundTransparent: string, glow: string, border: string)

  function Tokens(t: Theme): (m: StyleTokens)
    ensures m.glow == m.primary == t.primaryColor
    ensures m.accent == t.accentColor && m.text == t.textColor && m.background == t.backgroundColor
    ensures m.backgroundTransparent == TransparentBackground(t.backgroundColor)
    ensures m.border == BorderColor(t.primaryColor)
  {
    StyleTokens(t.primaryColor, t.accentColor, t.textColor, t.backgroundColor,
                TransparentBackground(t.backgroundColor), t.primaryColor, BorderColor(t.primaryColor))
  }

  lemma HashRemoved(primary: string)
    requires IsHexColor(primary)
    ensures RemoveFirst(primary, '#') == primary[1..]
  {
  }

  /** The two characters `substring(start, stop)` takes from the colour's digits. */
  lemma PairOfColour(primary: string, start: nat, stop: nat, hi: nat, lo: nat)
    requires IsHexColor(primary) && start <= 4 && stop == start + 2 && hi == start + 1 && lo == start + 2
    ensures Substring(RemoveFirst(primary, '#'), start, stop) == [primary[hi], primary[lo]]
  {
    HashRemoved(primary);
  }

  /**
   * The component read from digits `start` to `stop` of the colour is the
   * value of the pair at `hi` and `lo` of the colour itself (one past, for the `#`).
   */
  lemma ComponentAt(primary: string, start: nat, stop: nat, hi: nat, lo: nat)
    requires IsHexColor(primary) && start <= 4 && stop == start + 2 && hi == start + 1 && lo == start + 2
    ensures ParseIntHex(Substring(RemoveFirst(primary, '#'), start, stop))
            == Some(16 * HexDigitValue(primary[hi]) + HexDigitValue(primary[lo]))
  {
    PairOfColour(primary, start, stop, hi, lo);
    var pair := Substring(RemoveFirst(primary, '#'), start, stop);
    assert |pair| == 2 && pair[0] == primary[hi] && pair[1] == primary[lo];
  }

  /** For a well-formed `#rrggbb` colour each component is the value of its hex pair, in [0, 255]. */
  lemma WellFormedComponents(primary: string)
    requires IsHexColor(primary)
    ensures HexComponents(primary).0 == Some(16 * HexDigitValue(primary[1]) + HexDigitValue(primary[2]))
    ensures HexComponents(primary).1 == Some(16 * HexDigitValue(primary[3]) + HexDigitValue(primary[4]))
    ensures HexComponents(primary).2 == Some(16 * HexDigitValue(primary[5]) + HexDigitValue(primary[6]))
  {
    ComponentAt(primary, 0, 2, 1, 2);
    ComponentAt(primary, 2, 4, 3, 4);
    ComponentAt(primary, 4, 6, 5, 6);
  }

  /** The colour `#rrggbb` printed from three byte values with lower-case digits. */
  function PrintedColour(r: nat, g: nat, b: nat): (primary: string)
    requires r < 256 && g < 256 && b < 256
    ensures IsHexColor(primary)
    ensures HexDigitValue(primary[1]) == r / 16 && HexDigitValue(primary[2]) == r % 16
    ensures HexDigitValue(primary[3]) == g / 16 && HexDigitValue(primary[4]) == g % 16
    ensures HexDigitValue(primary[5]) == b / 16 && HexDigitValue(primary[6]) == b % 16
  {
    "#" + HexPair(r) + HexPair(g) + HexPair(b)
  }

  /** A colour whose digit pairs spell three bytes has those bytes as its components. */
  lemma ComponentsOfBytes(primary: string, r: nat, g: nat, b: nat)
    requires IsHexColor(primary)
    requires HexDigitValue(primary[1]) == r / 16 && HexDigitValue(primary[2]) == r % 16
    requires HexDigitValue(primary[3]) == g / 16 && HexDigitValue(primary[4]) == g % 16
    requires HexDigitValue(primary[5]) == b / 16 && HexDigitValue(primary[6]) == b % 16
    ensures HexComponents(primary) == (Some(r), Some(g), Some(b))
  {
    assert 16 * HexDigitValue(primary[1]) + HexDigitValue(primary[2]) == r by { SplitByte(r); }
    assert 16 * HexDigitValue(primary[3]) + HexDigitValue(primary[4]) == g by { SplitByte(g); }
    assert 16 * HexDigitValue(primary[5]) + HexDigitValue(primary[6]) == b by { SplitByte(b); }
    WellFormedComponents(primary);
  }

  lemma SplitByte(n: nat)
    ensures 16 * (n / 16) + n % 16 == n
  {
  }

  lemma FormatByte(n: nat)
    ensures FormatNumber(Some(n)) == NatToDecimal(n)
  {
  }

  /** Each component of a well-formed colour is printed as its digit pair's value in decimal. */
  lemma ComponentsInDecimal(primary: string)
    ensures IsHexColor(primary) ==>
              && FormatNumber(HexComponents(primary).0) == NatToDecimal(16 * HexDigitValue(primary[1]) + HexDigitValue(primary[2]))
              && FormatNumber(HexComponents(primary).1) == NatToDecimal(16 * HexDigitValue(primary[3]) + HexDigitValue(primary[4]))
              && FormatNumber(HexComponents(primary).2) == NatToDecimal(16 * HexDigitValue(primary[5]) + HexDigitValue(primary[6]))
  {
    if IsHexColor(primary) {
      WellFormedComponents(primary);
      FormatByte(16 * HexDigitValue(primary[1]) + HexDigitValue(primary[2]));
      FormatByte(16 * HexDigitValue(primary[3]) + HexDigitValue(primary[4]));
      FormatByte(16 * HexDigitValue(primary[5]) + HexDigitValue(primary[6]));
    }
  }

  /** Printing three bytes as `#rrggbb` and deriving the border colour gives those bytes back in decimal. */
  lemma BorderColorOfPrintedBytes(r: nat, g: nat, b: nat)
    requires r < 256 && g < 256 && b < 256
    ensures BorderColor(PrintedColour(r, g, b))
            == "rgba(" + NatToDecimal(r) + ", " + NatToDecimal(g) + ", " + NatToDecimal(b) + ", 0.3)"
  {
    ComponentsOfBytes(PrintedColour(r, g, b), r, g, b);
    FormatByte(r);
    FormatByte(g);
    FormatByte(b);
  }

  lemma DefaultPrimaryIsPrinted()
    ensures PrintedColour(3, 216, 243) == "#03d8f3"
  {
    assert HexPair(3) == "03" && HexPair(216) == "d8" && HexPair(243) == "f3";
  }

  lemma DefaultComponentsInDecimal()
    ensures NatToDecimal(3) == "3" && NatToDecimal(216) == "216" && NatToDecimal(243) == "243"
  {
    assert NatToDecimal(21) == "21" && NatToDecimal(24) == "24";
  }

  /** The default primary colour gives the border colour `rgba(3, 216, 243, 0.3)`. */
  lemma DefaultBorderColor()
    ensures BorderColor("#03d8f3") == "rgba(3, 216, 243, 0.3)"
  {
    DefaultPrimaryIsPrinted();
    BorderColorOfPrintedBytes(3, 216, 243);
    DefaultComponentsInDecimal();
    DefaultBorderText();
  }

  lemma DefaultBorderText()
    ensures "rgba(" + "3" + ", " + "216" + ", " + "243" + ", 0.3)" == "rgba(3, 216, 243, 0.3)"
  {
  }
}
