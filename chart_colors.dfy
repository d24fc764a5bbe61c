/**
 * The single-list colour schemes of the chart library helpers: six named
 * lists of six colours, lookup by name, and a list of any length made by
 * repeating a scheme's colours.
 */
module ChartColors {
  import opened Types

  datatype ColorScheme = ColorScheme(name: string, colors: seq<string>)

  const COLOR_SCHEMES: seq<ColorScheme> := [
    ColorScheme("Default", ["#4f46e5", "#2563eb", "#7c3aed", "#db2777", "#059669", "#d97706"]),
    ColorScheme("Blues", ["#2563eb", "#3b82f6", "#60a5fa", "#93c5fd", "#bfdbfe", "#dbeafe"]),
    ColorScheme("Greens", ["#059669", "#10b981", "#34d399", "#6ee7b7", "#a7f3d0", "#d1fae5"]),
    ColorScheme("Warm", ["#dc2626", "#f59e0b", "#d97706", "#ea580c", "#db2777", "#e11d48"]),
    ColorScheme("Cool", ["#2dd4bf", "#06b6d4", "#0ea5e9", "#3b82f6", "#6366f1", "#8b5cf6"]),
    ColorScheme("Gray", ["#111827", "#374151", "#4b5563", "#6b7280", "#9ca3af", "#d1d5db"])
  ]

  /** Every built-in scheme has six colours. */
  lemma SchemesHaveSixColors()
    ensures forall i :: 0 <= i < |COLOR_SCHEMES| ==> |COLOR_SCHEMES[i].colors| == 6
  {
    forall i | 0 <= i < |COLOR_SCHEMES| ensures |COLOR_SCHEMES[i].colors| == 6 {
      SchemeHasSixColors(i);
    }
  }

  lemma SchemeHasSixColors(i: nat)
    requires i < |COLOR_SCHEMES|
    ensures |COLOR_SCHEMES[i].colors| == 6
  {
  }

  /** `getColorScheme`: the first scheme with that name, else the first scheme. */
  function GetColorScheme(name: string): (r: ColorScheme)
    ensures r in COLOR_SCHEMES
    ensures r.name == name || (r == COLOR_SCHEMES[0] && forall i :: 0 <= i < |COLOR_SCHEMES| ==> COLOR_SCHEMES[i].name != name)
  {
    FindFirst(COLOR_SCHEMES, name, 0)
  }

  /** The first scheme from index `from` on with that name, else the first scheme. */
  function FindFirst(schemes: seq<ColorScheme>, name: string, from: nat): (r: ColorScheme)
    requires schemes == COLOR_SCHEMES && from <= |schemes|
    requires forall i :: 0 <= i < from ==> schemes[i].name != name
    ensures r in schemes
    ensures r.name == name || (r == schemes[0] && forall i :: 0 <= i < |schemes| ==> schemes[i].name != name)
    decreases |schemes| - from
  {
    if from == |schemes| then schemes[0]
    else if schemes[from].name == name then schemes[from]
    else FindFirst(schemes, name, from + 1)
  }

  /** The scheme found is the first one carrying the name. */
  lemma {:induction false} GetColorSchemeFirst(name: string, i: nat)
    requires i < |COLOR_SCHEMES| && COLOR_SCHEMES[i].name == name
    requires forall j :: 0 <= j < i ==> COLOR_SCHEMES[j].name != name
    ensures GetColorScheme(name) == COLOR_SCHEMES[i]
  {
    FindFirstAt(name, 0, i);
  }

  lemma {:induction false} FindFirstAt(name: string, from: nat, i: nat)
    requires from <= i < |COLOR_SCHEMES| && COLOR_SCHEMES[i].name == name
    requires forall j :: 0 <= j < i ==> COLOR_SCHEMES[j].name != name
    ensures FindFirst(COLOR_SCHEMES, name, from) == COLOR_SCHEMES[i]
    decreases i - from
  {
    if from < i {
      FindFirstAt(name, from + 1, i);
    }
  }

  /** The list `getChartColors` returns: `count` colours cycling through the scheme. */
  function CycledColors(colors: seq<string>, count: nat): (r: seq<string>)
    requires colors != [] || count == 0
    ensures |r| == count
  {
    seq(count, i requires 0 <= i < count => colors[i % |colors|])
  }

  /**
   * `getChartColors`: copy the scheme's colours, append the whole list
   * again until there are at least `count`, and keep the first `count`
   * (a negative `count` drops that many from the end, as `slice` does). An
   * empty scheme asked for a positive count never leaves the loop in the
   * source, so that case is excluded.
   */
  method GetChartColors(scheme: ColorScheme, count: int) returns (colors: seq<string>)
    requires scheme.colors != [] || count <= 0
    ensures count >= 0 ==> colors == CycledColors(scheme.colors, count)
    ensures count < 0 ==> colors == scheme.colors[..if |scheme.colors| + count > 0 then |scheme.colors| + count else 0]
  {
    var n := |scheme.colors|;
    colors := scheme.colors;
    if count > 0 {
      ghost var copies := 1;
      CycledOnce(scheme.colors);
      while |colors| < count
        invariant copies >= 1 && |colors| == copies * n
        invariant Cycled(colors, scheme.colors)
        decreases count - |colors|
      {
        AppendKeepsCycle(colors, scheme.colors, copies);
        colors := colors + scheme.colors;
        copies := copies + 1;
      }
      CycledPrefix(colors, scheme.colors, count);
      colors := colors[..count];
    } else if count == 0 {
      colors := [];
    } else {
      colors := colors[..if n + count > 0 then n + count else 0];
    }
  }

  /** The first `count` entries of a cycled list are the cycled colours. */
  lemma CycledPrefix(colors: seq<string>, scheme: seq<string>, count: nat)
    requires scheme != [] && Cycled(colors, scheme) && count <= |colors|
    ensures colors[..count] == CycledColors(scheme, count)
  {
    forall i | 0 <= i < count ensures colors[..count][i] == CycledColors(scheme, count)[i] {
    }
  }

  /** Each position holds the scheme colour its index wraps round to. */
  ghost predicate Cycled(colors: seq<string>, scheme: seq<string>)
  {
    scheme != [] ==> forall i :: 0 <= i < |colors| ==> colors[i] == scheme[i % |scheme|]
  }

  lemma CycledOnce(scheme: seq<string>)
    ensures Cycled(scheme, scheme)
  {
    forall i | 0 <= i < |scheme| ensures scheme[i] == scheme[i % |scheme|] {
      ModuloUnique(i, |scheme|, 0, i);
    }
  }

  /** Appending another whole copy keeps every position on its wrapped colour. */
  lemma AppendKeepsCycle(colors: seq<string>, scheme: seq<string>, copies: nat)
    requires |colors| == copies * |scheme| && Cycled(colors, scheme)
    ensures |colors + scheme| == (copies + 1) * |scheme|
    ensures Cycled(colors + scheme, scheme)
  {
    var n := |scheme|;
    if n > 0 {
      forall i | 0 <= i < |colors + scheme| ensures (colors + scheme)[i] == scheme[i % n] {
        if i >= |colors| {
          CycleIndex(i, copies, n);
        }
      }
    }
  }

  /** Past a whole number of copies the index wraps back into the newest copy. */
  lemma CycleIndex(i: int, copies: int, n: int)
    requires n > 0 && copies * n <= i < copies * n + n
    ensures i - copies * n == i % n
  {
    ModuloUnique(i, n, copies, i - copies * n);
  }

  /** Asking for no more colours than the scheme has gives its first `count` colours. */
  lemma ShortRequestIsPrefix(colors: seq<string>, count: nat)
    requires count <= |colors|
    ensures CycledColors(colors, count) == colors[..count]
  {
    forall i | 0 <= i < count ensures CycledColors(colors, count)[i] == colors[i] {
      ModuloUnique(i, |colors|, 0, i);
    }
  }
}
