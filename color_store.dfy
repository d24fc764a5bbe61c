/**
 * The colour store: the chosen scheme name and the user's saved palettes,
 * the palette a chart is drawn with, and the helpers that brighten a hex
 * colour and generate HSL shade lists.
 */
module ColorStore {
  import opened Wrappers
  import opened Strs
  import opened Hex
  import opened Types
  import opened ColorConfig

  /** The longest run of hex digits at the start of `s`. */
  function HexPrefix(s: string): (r: string)
    ensures AllHex(r) && |r| <= |s| && r == s[..|r|]
    ensures |r| < |s| ==> !IsHexDigit(s[|r|])
  {
    if s != [] && IsHexDigit(s[0]) then [s[0]] + HexPrefix(s[1..]) else []
  }

  lemma {:induction false} HexPrefixAll(s: string)
    requires AllHex(s)
    ensures HexPrefix(s) == s
  {
    if s != [] {
      assert AllHex(s[1..]);
      HexPrefixAll(s[1..]);
    }
  }

  /**
   * `parseInt(s, 16)`: leading white space, an optional sign and an
   * optional `0x` are skipped, then the longest run of hex digits is read;
   * `None` is the `NaN` of a text with no digits there.
   */
  function ParseInt16(s: string): Option<int>
  {
    var t := TrimStart(s);
    var negative := t != [] && t[0] == '-';
    var unsigned := if t != [] && (t[0] == '-' || t[0] == '+') then t[1..] else t;
    var body := if |unsigned| >= 2 && unsigned[0] == '0' && (unsigned[1] == 'x' || unsigned[1] == 'X') then unsigned[2..] else unsigned;
    var digits := HexPrefix(body);
    if digits == [] then None
    else Some(if negative then 0 - ParseDigits(digits) else ParseDigits(digits))
  }

  /** A non-empty run of hex digits reads as its value. */
  lemma ParseInt16OfDigits(s: string)
    requires s != [] && AllHex(s)
    ensures ParseInt16(s) == Some(ParseDigits(s))
  {
    assert IsHexDigit(s[0]) && !IsSpace(s[0]) && s[0] != '-' && s[0] != '+';
    assert TrimStart(s) == s;
    assert |s| >= 2 ==> s[1] != 'x' && s[1] != 'X' by {
      if |s| >= 2 {
        assert IsHexDigit(s[1]);
      }
    }
    HexPrefixAll(s);
  }

  /** The signed 32-bit integer the bit operators see. */
  function ToInt32(n: int): (r: int)
    ensures -0x8000_0000 <= r < 0x8000_0000
    ensures 0 <= n < 0x8000_0000 ==> r == n
  {
    var m := n % 0x1_0000_0000;
    if m >= 0x8000_0000 then m - 0x1_0000_0000 else m
  }

  /** `Math.min(255, Math.max(0, v))`. */
  function ClampChannel(v: int): (r: int)
    ensures 0 <= r <= 255
    ensures 0 <= v <= 255 ==> r == v
  {
    if v < 0 then 0 else if v > 255 then 255 else v
  }

  /** The number the bit operators of `adjustColor` see: a `NaN` acts as 0. */
  function Decode(hex: string): int
  {
    var parsed := ParseInt16(if hex == [] then [] else hex[1..]);
    if parsed.None? then 0 else ToInt32(parsed.value)
  }

  /** `#` and the three bytes packed red-green-blue, `toString(16)` padded to six digits. */
  function Encode(red: int, green: int, blue: int): (r: string)
    requires 0 <= red <= 255 && 0 <= green <= 255 && 0 <= blue <= 255
    ensures |r| == 7 && r[0] == '#'
    ensures blue + green * 0x100 + red * 0x1_0000 < Pow16(6)
    ensures r[1..] == FixedHex(blue + green * 0x100 + red * 0x1_0000, 6)
    ensures AllHex(r[1..]) && forall i :: 1 <= i < 7 ==> !('A' <= r[i] <= 'F')
  {
    var packed := blue + green * 0x100 + red * 0x1_0000;
    assert Pow16(6) == 0x100_0000;
    PaddedHex(packed, 6);
    var r := "#" + PadStart(ToHexString(packed), 6, '0');
    assert forall i :: 1 <= i < 7 ==> r[i] == r[1..][i - 1];
    r
  }

  /**
   * `adjustColor`: decode the digits after the first character, add
   * `amount` to the red, green and blue bytes each clamped to [0, 255],
   * and re-encode as `#` and six lower-case hex digits. The source's
   * locals name the green and blue bytes the other way round but put each
   * back where it came from.
   */
  function AdjustColor(hex: string, amount: int): (r: string)
    ensures |r| == 7 && r[0] == '#' && AllHex(r[1..])
    ensures forall i :: 1 <= i < 7 ==> !('A' <= r[i] <= 'F')
  {
    AdjustNumber(Decode(hex), amount)
  }

  /** The shifts, clamps and re-encoding of `adjustColor`, applied to the number read from the colour. */
  function AdjustNumber(num: int, amount: int): (r: string)
    ensures |r| == 7 && r[0] == '#' && AllHex(r[1..])
    ensures forall i :: 1 <= i < 7 ==> !('A' <= r[i] <= 'F')
  {
    var bytes := Bytes(num);
    var red := ClampChannel(bytes.0 + amount);
    var green := ClampChannel(bytes.1 + amount);
    var blue := ClampChannel(bytes.2 + amount);
    Encode(red, green, blue)
  }

  /** `num >> 16`, `(num >> 8) & 0xff` and `num & 0xff`: the shifts floor, the masks keep the low byte. */
  function Bytes(num: int): (int, int, int)
  {
    (num / 0x1_0000, (num / 0x100) % 0x100, num % 0x100)
  }

  /** The red, green and blue bytes of a `#RRGGBB` colour. */
  function Channel(color: string, k: nat): (v: nat)
    requires IsHexColor(color) && k < 3
    ensures v < 256
  {
    AllHexSlice(color[1..], 2 * k, 2 * k + 2);
    assert color[1 + 2 * k..3 + 2 * k] == color[1..][2 * k..2 * k + 2];
    ParseDigits(color[1 + 2 * k..3 + 2 * k])
  }

  /** The six digits of a colour are its three channels' two-digit values. */
  lemma ColorValue(color: string)
    requires IsHexColor(color)
    ensures ParseDigits(color[1..]) == Channel(color, 0) * 0x1_0000 + Channel(color, 1) * 0x100 + Channel(color, 2)
  {
    var d := color[1..];
    var c0, c1, c2 := Channel(color, 0), Channel(color, 1), Channel(color, 2);
    assert d == color[1..3] + color[3..5] + color[5..7];
    ParseSplit(color[1..3], color[3..5]);
    ParseSplit(color[1..3] + color[3..5], color[5..7]);
    assert ParseDigits(d) == (c0 * 256 + c1) * 256 + c2;
  }

  /** A `#RRGGBB` colour decodes to its 24-bit value. */
  lemma DecodeColor(color: string)
    requires IsHexColor(color)
    ensures Decode(color) == ParseDigits(color[1..])
    ensures Decode(color) == Channel(color, 0) * 0x1_0000 + Channel(color, 1) * 0x100 + Channel(color, 2)
  {
    ParseInt16OfDigits(color[1..]);
    ColorValue(color);
  }

  /** The packed bytes render as the three two-digit renderings side by side. */
  lemma EncodeChannels(red: int, green: int, blue: int)
    requires 0 <= red <= 255 && 0 <= green <= 255 && 0 <= blue <= 255
    ensures Encode(red, green, blue) == "#" + FixedHex(red, 2) + FixedHex(green, 2) + FixedHex(blue, 2)
  {
    var r := Encode(red, green, blue);
    SixDigits(red, green, blue);
    assert r[1..] == FixedHex(red, 2) + FixedHex(green, 2) + FixedHex(blue, 2);
    assert r == [r[0]] + r[1..];
  }

  lemma SixDigits(red: nat, green: nat, blue: nat)
    requires red <= 255 && green <= 255 && blue <= 255
    ensures blue + green * 0x100 + red * 0x1_0000 < Pow16(6)
    ensures FixedHex(blue + green * 0x100 + red * 0x1_0000, 6) == FixedHex(red, 2) + FixedHex(green, 2) + FixedHex(blue, 2)
  {
    var hi := red * 256 + green;
    FourDigits(red, green, hi);
    SplitLow(hi, blue, blue + green * 0x100 + red * 0x1_0000);
  }

  lemma FourDigits(red: nat, green: nat, hi: nat)
    requires red <= 255 && green <= 255 && hi == red * 256 + green
    ensures hi < Pow16(4)
    ensures FixedHex(hi, 4) == FixedHex(red, 2) + FixedHex(green, 2)
  {
    assert Pow16(2) == 256;
    FixedHexSplit(red, green, 2, 2);
  }

  lemma SplitLow(hi: nat, blue: nat, v: nat)
    requires hi < Pow16(4) && blue <= 255 && v == hi * 256 + blue
    ensures v < Pow16(6)
    ensures FixedHex(v, 6) == FixedHex(hi, 4) + FixedHex(blue, 2)
  {
    assert Pow16(2) == 256;
    FixedHexSplit(hi, blue, 4, 2);
  }

  /**
   * On a `#RRGGBB` colour `adjustColor` shifts each channel by `amount`
   * and clamps it, keeping every channel in its own place.
   */
  lemma AdjustColorChannels(color: string, amount: int)
    requires IsHexColor(color)
    ensures AdjustColor(color, amount) ==
      "#" + FixedHex(ClampChannel(Channel(color, 0) + amount), 2)
          + FixedHex(ClampChannel(Channel(color, 1) + amount), 2)
          + FixedHex(ClampChannel(Channel(color, 2) + amount), 2)
  {
    DecodeColor(color);
    AdjustBytes(Decode(color), amount, Channel(color, 0), Channel(color, 1), Channel(color, 2));
  }

  lemma AdjustBytes(num: int, amount: int, c0: nat, c1: nat, c2: nat)
    requires c0 < 256 && c1 < 256 && c2 < 256 && num == c0 * 0x1_0000 + c1 * 0x100 + c2
    ensures AdjustNumber(num, amount) ==
      "#" + FixedHex(ClampChannel(c0 + amount), 2) + FixedHex(ClampChannel(c1 + amount), 2) + FixedHex(ClampChannel(c2 + amount), 2)
  {
    ChannelsOf(num, c0, c1, c2);
    AdjustDecoded(num, amount, c0, c1, c2);
    EncodeChannels(ClampChannel(c0 + amount), ClampChannel(c1 + amount), ClampChannel(c2 + amount));
  }

  /** Once a colour decodes to three bytes, `adjustColor` re-encodes the three shifted and clamped bytes. */
  lemma AdjustDecoded(num: int, amount: int, c0: nat, c1: nat, c2: nat)
    requires c0 < 256 && c1 < 256 && c2 < 256 && Bytes(num) == (c0, c1, c2)
    ensures AdjustNumber(num, amount) == Encode(ClampChannel(c0 + amount), ClampChannel(c1 + amount), ClampChannel(c2 + amount))
  {
    var b := Bytes(num);
    assert b.0 == c0 && b.1 == c1 && b.2 == c2;
    assert AdjustNumber(num, amount) == Encode(ClampChannel(b.0 + amount), ClampChannel(b.1 + amount), ClampChannel(b.2 + amount));
  }

  /** Shifting by zero only lower-cases the digits. */
  lemma AdjustByZero(color: string)
    requires IsHexColor(color)
    ensures AdjustColor(color, 0) == "#" + Lowercase(color[1..])
  {
    DecodeColor(color);
    var c0, c1, c2 := Channel(color, 0), Channel(color, 1), Channel(color, 2);
    ChannelsOf(Decode(color), c0, c1, c2);
    AdjustDecoded(Decode(color), 0, c0, c1, c2);
    assert ClampChannel(c0 + 0) == c0 && ClampChannel(c1 + 0) == c1 && ClampChannel(c2 + 0) == c2;
    ReencodeDigits(color[1..], c0, c1, c2);
  }

  /** Six digits that read as three bytes are re-encoded as those digits in lower case. */
  lemma ReencodeDigits(digits: string, c0: nat, c1: nat, c2: nat)
    requires AllHex(digits) && |digits| == 6
    requires c0 < 256 && c1 < 256 && c2 < 256 && ParseDigits(digits) == c0 * 0x1_0000 + c1 * 0x100 + c2
    ensures Encode(c0, c1, c2) == "#" + Lowercase(digits)
  {
    var r := Encode(c0, c1, c2);
    assert r[1..] == FixedHex(ParseDigits(digits), 6);
    FixedHexOfParse(digits);
    assert r == [r[0]] + r[1..];
  }

  /** The shifts and masks of `adjustColor` take a 24-bit value apart into its bytes. */
  lemma ChannelsOf(v: int, c0: nat, c1: nat, c2: nat)
    requires c0 < 256 && c1 < 256 && c2 < 256 && v == c0 * 0x1_0000 + c1 * 0x100 + c2
    ensures Bytes(v) == (c0, c1, c2)
  {
    assert v == (c0 * 0x100 + c1) * 0x100 + c2;
    assert v / 0x100 == c0 * 0x100 + c1;
    assert v % 0x100 == c2;
    assert (c0 * 0x100 + c1) % 0x100 == c1;
    assert (c0 * 0x100 + c1) / 0x100 == c0;
  }

  /** An HSL colour with integer components. */
  datatype Hsl = Hsl(hue: int, saturation: int, lightness: int)

  /** `hsl(${h}, ${s}%, ${l}%)`. */
  function HslText(c: Hsl): string
  {
    "hsl(" + IntToString(c.hue) + ", " + IntToString(c.saturation) + "%, " + IntToString(c.lightness) + "%)"
  }

  function Clamp(v: int, lo: int, hi: int): (r: int)
    requires lo <= hi
    ensures lo <= r <= hi
    ensures lo <= v <= hi ==> r == v
  {
    if v < lo then lo else if v > hi then hi else v
  }

  datatype ColorGenConfig = ColorGenConfig(hue: int, saturation: int, lightness: int, steps: int)

  /** Shade `i` of the store's generator: same hue, saturation down 5 and lightness up 10 per step. */
  function StoreShade(config: ColorGenConfig, i: int): Hsl
  {
    Hsl(config.hue, Clamp(config.saturation - i * 5, 20, 100), Clamp(config.lightness + i * 10, 20, 90))
  }

  /** The list `generateHslPalette` returns: one shade per step, none for a non-positive count. */
  function HslPaletteOf(config: ColorGenConfig): (r: seq<string>)
    ensures |r| == if config.steps > 0 then config.steps else 0
  {
    var n := if config.steps > 0 then config.steps else 0;
    seq(n, i requires 0 <= i < n => HslText(StoreShade(config, i)))
  }

  /** `generateHslPalette`: the `for` loop pushing one shade per step. */
  method GenerateHslPalette(config: ColorGenConfig) returns (palette: seq<string>)
    ensures palette == HslPaletteOf(config)
  {
    palette := [];
    var i := 0;
    while i < config.steps
      invariant 0 <= i <= (if config.steps > 0 then config.steps else 0)
      invariant |palette| == i
      invariant forall k :: 0 <= k < i ==> palette[k] == HslText(StoreShade(config, k))
    {
      var l := Clamp(config.lightness + i * 10, 20, 90);
      var s := Clamp(config.saturation - i * 5, 20, 100);
      var shade := Hsl(config.hue, s, l);
      assert shade == StoreShade(config, i);
      palette := palette + [HslText(shade)];
      i := i + 1;
    }
    ghost var expected := HslPaletteOf(config);
    assert |palette| == |expected|;
    assert forall k :: 0 <= k < |palette| ==> palette[k] == expected[k];
  }

  /**
   * Along a generated list the hue stays put, lightness never falls and
   * saturation never rises, both within their clamps.
   */
  lemma ShadesProgress(config: ColorGenConfig, i: int, j: int)
    requires 0 <= i <= j
    ensures StoreShade(config, i).hue == StoreShade(config, j).hue == config.hue
    ensures 20 <= StoreShade(config, j).saturation <= StoreShade(config, i).saturation <= 100
    ensures 20 <= StoreShade(config, i).lightness <= StoreShade(config, j).lightness <= 90
  {
    assert config.saturation - j * 5 <= config.saturation - i * 5;
    assert config.lightness + i * 10 <= config.lightness + j * 10;
  }

  /** The comparison settings: hue turned half way round, saturation up 10 but at most 100. */
  function ComparisonConfig(config: ColorGenConfig): (c: ColorGenConfig)
    ensures c.steps == config.steps && c.lightness == config.lightness
    ensures (config.hue + 180 - c.hue) % 360 == 0
    ensures config.hue >= 0 ==> 0 <= c.hue < 360
    ensures c.saturation == if config.saturation + 10 <= 100 then config.saturation + 10 else 100
  {
    config.(hue := JsRem(config.hue + 180, 360), saturation := if config.saturation + 10 < 100 then config.saturation + 10 else 100)
  }

  /** `generateColorPalette`: primary shades from the settings, comparison shades from the turned-round settings. */
  method GenerateColorPalette(config: ColorGenConfig) returns (palette: ColorPalette)
    ensures palette == ColorPalette(HslPaletteOf(config), HslPaletteOf(ComparisonConfig(config)))
    ensures |palette.primary| == |palette.comparison|
  {
    var primaryColors := GenerateHslPalette(config);
    var compColors := GenerateHslPalette(ComparisonConfig(config));
    palette := ColorPalette(primaryColors, compColors);
  }

  /**
   * `getChartColors`: the saved palette named by the scheme, else the
   * built-in scheme of that name, else the first built-in scheme. The
   * chart id the source takes is never used and is not a parameter here.
   */
  function ChartColorsFor(globalScheme: string, customPalettes: map<string, ColorPalette>): ColorPalette
  {
    if globalScheme in customPalettes then customPalettes[globalScheme]
    else
      match FindScheme(ColorSchemes(), globalScheme)
      case Some(scheme) => scheme.colors
      case None => ColorSchemes()[0].colors
  }

  /**
   * Without a saved palette of that name the chart colours are the
   * built-in palette carrying the name, or the Default palette, and so
   * always pass `validatePalette`.
   */
  lemma ChartColorsMeaning(globalScheme: string, customPalettes: map<string, ColorPalette>)
    ensures globalScheme in customPalettes ==> ChartColorsFor(globalScheme, customPalettes) == customPalettes[globalScheme]
    ensures globalScheme !in customPalettes ==>
      ValidatePalette(ChartColorsFor(globalScheme, customPalettes))
      && ((exists i :: 0 <= i < |DEFAULT_PALETTES| && DEFAULT_PALETTES[i].scheme.name == globalScheme)
          ==> exists i :: 0 <= i < |DEFAULT_PALETTES| && DEFAULT_PALETTES[i].scheme.name == globalScheme
                && ChartColorsFor(globalScheme, customPalettes) == DEFAULT_PALETTES[i].scheme.colors)
      && ((forall i :: 0 <= i < |DEFAULT_PALETTES| ==> DEFAULT_PALETTES[i].scheme.name != globalScheme)
          ==> ChartColorsFor(globalScheme, customPalettes) == GetDefaultPalette())
  {
    BuiltInPalettesValid();
    var schemes := ColorSchemes();
    if globalScheme !in customPalettes {
      var found := FindScheme(schemes, globalScheme);
      if found.Some? {
        var i :| 0 <= i < |schemes| && schemes[i] == found.value;
        assert DEFAULT_PALETTES[i].scheme == found.value;
      }
    }
  }

  /** The store's two fields; the browser persistence around them is not modelled. */
  class Store {
    var globalScheme: string
    var customPalettes: map<string, ColorPalette>

    /** The initial state: the Default scheme and no saved palettes. */
    constructor()
      ensures globalScheme == "Default" && customPalettes == map[]
    {
      globalScheme := "Default";
      customPalettes := map[];
    }

    function GetChartColors(): (r: ColorPalette)
      reads this
      ensures globalScheme in customPalettes ==> r == customPalettes[globalScheme]
      ensures globalScheme !in customPalettes ==> ValidatePalette(r)
    {
      ChartColorsMeaning(globalScheme, customPalettes);
      ChartColorsFor(globalScheme, customPalettes)
    }

    method SetGlobalScheme(scheme: string)
      modifies this
      ensures globalScheme == scheme && customPalettes == old(customPalettes)
    {
      globalScheme := scheme;
    }

    /** Insert or overwrite the one key. */
    method SaveCustomPalette(name: string, palette: ColorPalette)
      modifies this
      ensures customPalettes == old(customPalettes)[name := palette]
      ensures globalScheme == old(globalScheme)
    {
      customPalettes := customPalettes[name := palette];
    }

    /** Remove the one key; an absent key changes nothing. */
    method DeleteCustomPalette(name: string)
      modifies this
      ensures customPalettes == old(customPalettes) - {name}
      ensures globalScheme == old(globalScheme)
    {
      customPalettes := customPalettes - {name};
    }
  }

  /** Saving a new name and deleting it again leaves the saved palettes as they were. */
  lemma SaveThenDeleteRestores(customPalettes: map<string, ColorPalette>, name: string, palette: ColorPalette)
    requires name !in customPalettes
    ensures customPalettes[name := palette] - {name} == customPalettes
  {
    assert (customPalettes[name := palette] - {name}).Keys == customPalettes.Keys;
  }
}
