/**
 * The built-in colour palettes: six named pairs of six primary and six
 * comparison colours, the scheme list derived from them, the default
 * palette, and the rule a palette must follow to be accepted.
 */
module ColorConfig {
  import opened Wrappers
  import opened Seqs
  import opened Hex

  const DEFAULT_PALETTE_SIZE: nat := 6

  /** A palette: the colours for the selected period and those for the comparison period. */
  datatype ColorPalette = ColorPalette(primary: seq<string>, comparison: seq<string>)

  datatype ColorScheme = ColorScheme(name: string, colors: ColorPalette)

  /** One entry of the `DEFAULT_PALETTES` object: its key and its named palette. */
  datatype PaletteEntry = PaletteEntry(theme: string, scheme: ColorScheme)

  /** `DEFAULT_PALETTES`, in declaration order. */
  const DEFAULT_PALETTES: seq<PaletteEntry> := [
    PaletteEntry("DEFAULT", ColorScheme("Default", ColorPalette(
      ["#4338CA", "#0891B2", "#7C3AED", "#DC2626", "#16A34A", "#F59E0B"],
      ["#6D28D9", "#0E7490", "#9333EA", "#EF4444", "#22C55E", "#F97316"]))),
    PaletteEntry("MONOCHROME", ColorScheme("Monochrome", ColorPalette(
      ["#18181B", "#3F3F46", "#52525B", "#71717A", "#A1A1AA", "#D4D4D8"],
      ["#27272A", "#4B4B54", "#65656E", "#84848D", "#B4B4BD", "#E7E7EB"]))),
    PaletteEntry("OCEAN", ColorScheme("Ocean", ColorPalette(
      ["#0C4A6E", "#0369A1", "#0EA5E9", "#38BDF8", "#7DD3FC", "#BAE6FD"],
      ["#164E63", "#0E7490", "#06B6D4", "#22D3EE", "#67E8F9", "#A5F3FC"]))),
    PaletteEntry("FOREST", ColorScheme("Forest", ColorPalette(
      ["#166534", "#16A34A", "#22C55E", "#4ADE80", "#86EFAC", "#BBF7D0"],
      ["#854D0E", "#A16207", "#CA8A04", "#EAB308", "#FDE047", "#FEF08A"]))),
    PaletteEntry("WARM", ColorScheme("Warm", ColorPalette(
      ["#9F1239", "#DC2626", "#EA580C", "#D97706", "#CA8A04", "#65A30D"],
      ["#6D28D9", "#2563EB", "#0891B2", "#0D9488", "#059669", "#16A34A"]))),
    PaletteEntry("COOL", ColorScheme("Cool", ColorPalette(
      ["#1E40AF", "#0EA5E9", "#06B6D4", "#0D9488", "#059669", "#16A34A"],
      ["#9F1239", "#DC2626", "#EA580C", "#D97706", "#CA8A04", "#65A30D"])))
  ]

  /** `COLOR_SCHEMES`: the named palettes of `DEFAULT_PALETTES`, copied, in the same order. */
  function ColorSchemes(): (r: seq<ColorScheme>)
    ensures |r| == |DEFAULT_PALETTES|
    ensures forall i :: 0 <= i < |r| ==> r[i] == DEFAULT_PALETTES[i].scheme
  {
    seq(|DEFAULT_PALETTES|, i requires 0 <= i < |DEFAULT_PALETTES| => DEFAULT_PALETTES[i].scheme)
  }

  /** `/^#[0-9A-Fa-f]{6}$/`: a hash followed by exactly six hex digits. */
  predicate IsHexColor(color: string)
  {
    |color| == 7 && color[0] == '#' && AllHex(color[1..])
  }

  /** `validatePalette`. */
  predicate ValidatePalette(palette: ColorPalette)
  {
    |palette.primary| == DEFAULT_PALETTE_SIZE
    && |palette.comparison| == DEFAULT_PALETTE_SIZE
    && (forall i :: 0 <= i < |palette.primary| ==> IsHexColor(palette.primary[i]))
    && (forall i :: 0 <= i < |palette.comparison| ==> IsHexColor(palette.comparison[i]))
  }

  /** Every built-in palette passes `validatePalette`. */
  lemma BuiltInPalettesValid()
    ensures forall i :: 0 <= i < |DEFAULT_PALETTES| ==> ValidatePalette(DEFAULT_PALETTES[i].scheme.colors)
  {
    forall i | 0 <= i < |DEFAULT_PALETTES| ensures ValidatePalette(DEFAULT_PALETTES[i].scheme.colors) {
      PaletteValid(i);
    }
  }

  lemma PaletteValid(i: nat)
    requires i < |DEFAULT_PALETTES|
    ensures ValidatePalette(DEFAULT_PALETTES[i].scheme.colors)
  {
    match i
    case 0 => DefaultValid();
    case 1 => MonochromeValid();
    case 2 => OceanValid();
    case 3 => ForestValid();
    case 4 => WarmValid();
    case 5 => CoolValid();
  }

  /** The built-in palettes one by one, so that each proof looks at twelve colours only. */
  lemma DefaultValid()
    ensures ValidatePalette(DEFAULT_PALETTES[0].scheme.colors)
  {
    ColorsValid(DEFAULT_PALETTES[0].scheme.colors.primary);
    ColorsValid(DEFAULT_PALETTES[0].scheme.colors.comparison);
  }

  lemma MonochromeValid()
    ensures ValidatePalette(DEFAULT_PALETTES[1].scheme.colors)
  {
    ColorsValid(DEFAULT_PALETTES[1].scheme.colors.primary);
    ColorsValid(DEFAULT_PALETTES[1].scheme.colors.comparison);
  }

  lemma OceanValid()
    ensures ValidatePalette(DEFAULT_PALETTES[2].scheme.colors)
  {
    ColorsValid(DEFAULT_PALETTES[2].scheme.colors.primary);
    ColorsValid(DEFAULT_PALETTES[2].scheme.colors.comparison);
  }

  lemma ForestValid()
    ensures ValidatePalette(DEFAULT_PALETTES[3].scheme.colors)
  {
    ColorsValid(DEFAULT_PALETTES[3].scheme.colors.primary);
    ColorsValid(DEFAULT_PALETTES[3].scheme.colors.comparison);
  }

  lemma WarmValid()
    ensures ValidatePalette(DEFAULT_PALETTES[4].scheme.colors)
  {
    ColorsValid(DEFAULT_PALETTES[4].scheme.colors.primary);
    ColorsValid(DEFAULT_PALETTES[4].scheme.colors.comparison);
  }

  lemma CoolValid()
    ensures ValidatePalette(DEFAULT_PALETTES[5].scheme.colors)
  {
    ColorsValid(DEFAULT_PALETTES[5].scheme.colors.primary);
    ColorsValid(DEFAULT_PALETTES[5].scheme.colors.comparison);
  }

  /** Six colours, each a hash and six hex digits spelled out character by character. */
  lemma ColorsValid(colors: seq<string>)
    requires |colors| == 6
    requires forall j :: 0 <= j < 6 ==> SpelledHexColor(colors[j])
    ensures forall j :: 0 <= j < 6 ==> IsHexColor(colors[j])
  {
    forall j | 0 <= j < 6 ensures IsHexColor(colors[j]) {
      var c := colors[j];
      assert forall i :: 0 <= i < 6 ==> c[1..][i] == c[i + 1];
    }
  }

  predicate SpelledHexColor(c: string)
  {
    |c| == 7 && c[0] == '#'
    && IsHexDigit(c[1]) && IsHexDigit(c[2]) && IsHexDigit(c[3])
    && IsHexDigit(c[4]) && IsHexDigit(c[5]) && IsHexDigit(c[6])
  }

  /** The built-in names, and hence the scheme names, are pairwise distinct. */
  lemma BuiltInNamesDistinct()
    ensures forall i, j :: 0 <= i < j < |ColorSchemes()| ==> ColorSchemes()[i].name != ColorSchemes()[j].name
  {
    var s := ColorSchemes();
    assert s[0].name == "Default" && s[1].name == "Monochrome" && s[2].name == "Ocean";
    assert s[3].name == "Forest" && s[4].name == "Warm" && s[5].name == "Cool";
  }

  /** `COLOR_SCHEMES.find(s => s.name === name)`. */
  function FindScheme(schemes: seq<ColorScheme>, name: string): (r: Option<ColorScheme>)
    ensures r.None? <==> forall i :: 0 <= i < |schemes| ==> schemes[i].name != name
    ensures r.Some? ==> r.value in schemes && r.value.name == name
  {
    if schemes == [] then None
    else if schemes[0].name == name then Some(schemes[0])
    else
      var r := FindScheme(schemes[1..], name);
      assert forall i :: 1 <= i < |schemes| ==> schemes[i] == schemes[1..][i - 1];
      r
  }

  /** The scheme found is the first one carrying the name. */
  lemma {:induction false} FindSchemeFirst(schemes: seq<ColorScheme>, name: string, i: nat)
    requires i < |schemes| && schemes[i].name == name
    requires forall j :: 0 <= j < i ==> schemes[j].name != name
    ensures FindScheme(schemes, name) == Some(schemes[i])
  {
    if i > 0 {
      FindSchemeFirst(schemes[1..], name, i - 1);
    }
  }

  /** `getDefaultPalette`: a copy of the Default colours. */
  function GetDefaultPalette(): (r: ColorPalette)
    ensures r == DEFAULT_PALETTES[0].scheme.colors && DEFAULT_PALETTES[0].scheme.name == "Default"
    ensures ValidatePalette(r)
  {
    BuiltInPalettesValid();
    ColorPalette(DEFAULT_PALETTES[0].scheme.colors.primary, DEFAULT_PALETTES[0].scheme.colors.comparison)
  }

  /** `generateDefaultPalette`: likewise a copy of the Default colours. */
  function GenerateDefaultPalette(): (r: ColorPalette)
    ensures r == GetDefaultPalette()
  {
    var d := DEFAULT_PALETTES[0].scheme.colors;
    ColorPalette(d.primary[..], d.comparison[..])
  }
}
