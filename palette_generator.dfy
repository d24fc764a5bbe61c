/**
 * The palette editor: a name, three gradient settings and the two colour
 * lists being edited. A gradient replaces both lists with six HSL shades
 * each, one colour can be replaced at a time, and saving hands the name
 * and lists on only when the name is not blank.
 */
module PaletteGenerator {
  import opened Wrappers
  import opened Strs
  import opened Types
  import opened ColorConfig
  import opened ColorStore

  const GRADIENT_LENGTH: nat := 6
  const DEFAULT_HUE: int := 210
  const DEFAULT_SATURATION: int := 70
  const DEFAULT_LIGHTNESS: int := 50

  const DEFAULT_PRIMARY: seq<string> := ["#4f46e5", "#2563eb", "#7c3aed", "#db2777", "#059669", "#d97706"]
  const DEFAULT_COMPARISON: seq<string> := ["#9333ea", "#4f46e5", "#ec4899", "#f97316", "#84cc16", "#06b6d4"]

  /** Shade `i` of a gradient: hue turned 20 degrees, saturation down 5 and lightness up 5 per step. */
  function GeneratorShade(baseHue: int, saturation: int, lightness: int, i: int): Hsl
  {
    Hsl(JsRem(baseHue + i * 20, 360), Clamp(saturation - i * 5, 20, 100), Clamp(lightness + i * 5, 20, 90))
  }

  /** `generateHslPalette(baseHue, count)`: `Array.from` of `count` shades. */
  function GradientOf(baseHue: int, saturation: int, lightness: int, count: nat): (r: seq<string>)
    ensures |r| == count
  {
    seq(count, i requires 0 <= i < count => HslText(GeneratorShade(baseHue, saturation, lightness, i)))
  }

  /** The hue the comparison gradient starts from: half way round the wheel. */
  function ComparisonHue(hue: int): (c: int)
    ensures (hue + 180 - c) % 360 == 0
    ensures hue >= 0 ==> 0 <= c < 360
  {
    JsRem(hue + 180, 360)
  }

  /**
   * Along a gradient started from a hue on the wheel, shade `i` sits `20i`
   * degrees further round, saturation never rises and lightness never
   * falls, both kept within their clamps.
   */
  lemma GradientMeaning(baseHue: int, saturation: int, lightness: int, i: int, j: int)
    requires 0 <= baseHue && 0 <= i <= j
    ensures 0 <= GeneratorShade(baseHue, saturation, lightness, i).hue < 360
    ensures GeneratorShade(baseHue, saturation, lightness, i).hue == (baseHue + 20 * i) % 360
    ensures 20 <= GeneratorShade(baseHue, saturation, lightness, j).saturation
                <= GeneratorShade(baseHue, saturation, lightness, i).saturation <= 100
    ensures 20 <= GeneratorShade(baseHue, saturation, lightness, i).lightness
                <= GeneratorShade(baseHue, saturation, lightness, j).lightness <= 90
  {
    assert saturation - j * 5 <= saturation - i * 5;
    assert lightness + i * 5 <= lightness + j * 5;
  }

  /** Step for step, the comparison gradient's hue lies 180 degrees round from the primary one's. */
  lemma GradientHalfTurn(hue: int, saturation: int, lightness: int, i: nat)
    requires 0 <= hue
    ensures GeneratorShade(ComparisonHue(hue), saturation, lightness, i).hue
         == (GeneratorShade(hue, saturation, lightness, i).hue + 180) % 360
  {
    var a := hue + i * 20;
    var c := ComparisonHue(hue);
    var k := (hue + 180) / 360;
    assert c == hue + 180 - k * 360;
    ShiftByTurns(a + 180, 0 - k);
    ShiftByTurns(a + 180, 0 - a / 360);
    assert a % 360 == a - (a / 360) * 360;
  }

  /** Adding whole turns does not change an angle reduced to the wheel. */
  lemma ShiftByTurns(x: int, k: int)
    ensures (x + k * 360) % 360 == x % 360
  {
    ModuloUnique(x + k * 360, 360, x / 360 + k, x % 360);
  }

  /** The editor's state; the other switches and inputs only feed these fields. */
  class Generator {
    var name: string
    var hue: int
    var saturation: int
    var lightness: int
    var primaryColors: seq<string>
    var comparisonColors: seq<string>

    /**
     * A fresh editor: the given name (empty when none is given), the
     * default gradient settings, and the given palette's lists or else the
     * fixed defaults.
     */
    constructor(initialPalette: Option<ColorPalette>, initialName: string)
      ensures name == initialName
      ensures hue == DEFAULT_HUE && saturation == DEFAULT_SATURATION && lightness == DEFAULT_LIGHTNESS
      ensures primaryColors == if initialPalette.Some? then initialPalette.value.primary else DEFAULT_PRIMARY
      ensures comparisonColors == if initialPalette.Some? then initialPalette.value.comparison else DEFAULT_COMPARISON
    {
      name := initialName;
      hue := DEFAULT_HUE;
      saturation := DEFAULT_SATURATION;
      lightness := DEFAULT_LIGHTNESS;
      match initialPalette
      case Some(p) =>
        primaryColors := p.primary;
        comparisonColors := p.comparison;
      case None =>
        primaryColors := DEFAULT_PRIMARY;
        comparisonColors := DEFAULT_COMPARISON;
    }

    /** `generateGradient`: six shades from the hue, six from the hue half way round. */
    method GenerateGradient()
      modifies this
      ensures primaryColors == GradientOf(hue, saturation, lightness, GRADIENT_LENGTH)
      ensures comparisonColors == GradientOf(ComparisonHue(hue), saturation, lightness, GRADIENT_LENGTH)
      ensures name == old(name) && hue == old(hue) && saturation == old(saturation) && lightness == old(lightness)
    {
      primaryColors := GradientOf(hue, saturation, lightness, GRADIENT_LENGTH);
      comparisonColors := GradientOf(ComparisonHue(hue), saturation, lightness, GRADIENT_LENGTH);
    }

    /** `updatePrimaryColor`: the one entry is replaced, the rest and the length stay. */
    method UpdatePrimaryColor(index: int, color: string)
      requires 0 <= index < |primaryColors|
      modifies this
      ensures |primaryColors| == |old(primaryColors)| && primaryColors[index] == color
      ensures forall k :: 0 <= k < |primaryColors| && k != index ==> primaryColors[k] == old(primaryColors)[k]
      ensures comparisonColors == old(comparisonColors)
      ensures name == old(name) && hue == old(hue) && saturation == old(saturation) && lightness == old(lightness)
    {
      primaryColors := primaryColors[index := color];
    }

    /** `updateComparisonColor`: the one entry is replaced, the rest and the length stay. */
    method UpdateComparisonColor(index: int, color: string)
      requires 0 <= index < |comparisonColors|
      modifies this
      ensures |comparisonColors| == |old(comparisonColors)| && comparisonColors[index] == color
      ensures forall k :: 0 <= k < |comparisonColors| && k != index ==> comparisonColors[k] == old(comparisonColors)[k]
      ensures primaryColors == old(primaryColors)
      ensures name == old(name) && hue == old(hue) && saturation == old(saturation) && lightness == old(lightness)
    {
      comparisonColors := comparisonColors[index := color];
    }

    /**
     * `handleSave`: what reaches `onSave` — the name as typed with the two
     * current lists — and nothing when the trimmed name is empty.
     */
    method HandleSave() returns (saved: Option<(string, ColorPalette)>)
      ensures saved.Some? <==> !IsBlank(name)
      ensures saved.Some? ==> saved.value == (name, ColorPalette(primaryColors, comparisonColors))
    {
      if Trim(name) != "" {
        saved := Some((name, ColorPalette(primaryColors, comparisonColors)));
      } else {
        saved := None;
      }
    }
  }
}
