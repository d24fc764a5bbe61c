/**
 * The activity icons drawn over the timeline: one icon per entry whose
 * activity has an icon, placed at the entry's point or shifted by a
 * formation offset scaled by the icon size, and coloured black or white
 * by the brightness of the entry's background colour.
 */
module IconsOverlay {
  import opened Wrappers
  import opened Seqs
  import opened Hex
  import opened ColorConfig
  import opened ColorStore

  datatype Icon = Car | Footprints | PersonStanding | SquareArrowUp | SquareArrowDown | Box | MapPinHouse | CircleHelp

  /** `ACTIVITY_ICONS`: the icon of each of the eight activity types. */
  function IconFor(activity: string): (r: Option<Icon>)
    ensures r.Some? <==> activity in ["Drive", "Walk", "Stand", "Handle up", "Handle down", "Handle center", "Sit", "Unknown"]
  {
    match activity
    case "Drive" => Some(Car)
    case "Walk" => Some(Footprints)
    case "Stand" => Some(PersonStanding)
    case "Handle up" => Some(SquareArrowUp)
    case "Handle down" => Some(SquareArrowDown)
    case "Handle center" => Some(Box)
    case "Sit" => Some(MapPinHouse)
    case "Unknown" => Some(CircleHelp)
    case _ => None
  }

  /** A formation offset, in icon sizes. */
  datatype Offset = Offset(x: real, y: real)

  /** `EMPLOYEE_POSITIONS[k]`: where `k` employees' icons go around a shared point. */
  function EmployeePositions(k: nat): seq<Offset>
    requires 1 <= k <= 8
  {
    match k
    case 1 => [Offset(0.0, 0.0)]
    case 2 => [Offset(-0.6, 0.0), Offset(0.6, 0.0)]
    case 3 => [Offset(-0.5, -0.3), Offset(0.5, -0.3), Offset(0.0, 0.6)]
    case 4 => [Offset(-0.4, -0.4), Offset(0.4, -0.4), Offset(0.4, 0.4), Offset(-0.4, 0.4)]
    case 5 => [Offset(0.0, -0.6), Offset(0.6, -0.2), Offset(0.4, 0.5), Offset(-0.4, 0.5), Offset(-0.6, -0.2)]
    case 6 => [Offset(-0.5, -0.4), Offset(0.5, -0.4), Offset(0.6, 0.0), Offset(0.3, 0.5), Offset(-0.3, 0.5), Offset(-0.6, 0.0)]
    case 7 => [Offset(0.0, -0.6), Offset(0.5, -0.4), Offset(0.6, 0.1), Offset(0.3, 0.5), Offset(-0.3, 0.5),
               Offset(-0.6, 0.1), Offset(-0.5, -0.4)]
    case 8 => [Offset(0.0, -0.6), Offset(0.5, -0.4), Offset(0.6, 0.1), Offset(0.3, 0.5), Offset(-0.3, 0.5),
               Offset(-0.6, 0.1), Offset(-0.5, -0.4), Offset(0.0, 0.0)]
  }

  predicate WithinFormation(p: Offset)
  {
    -0.6 <= p.x <= 0.6 && -0.6 <= p.y <= 0.6
  }

  /**
   * The formation for `k` employees has exactly `k` places, all different,
   * none further than 0.6 icon sizes from the centre along either axis.
   */
  lemma FormationShape(k: nat)
    requires 1 <= k <= 8
    ensures |EmployeePositions(k)| == k
    ensures forall i :: 0 <= i < k ==> WithinFormation(EmployeePositions(k)[i])
    ensures forall i, j :: 0 <= i < j < k ==> EmployeePositions(k)[i] != EmployeePositions(k)[j]
  {
    var p := EmployeePositions(k);
    if k == 8 {
      assert p == EmployeePositions(7) + [Offset(0.0, 0.0)];
      FormationShape(7);
    }
  }

  /** One entry handed to the overlay. */
  datatype Placed = Placed(
    id: string,
    activity: string,
    x: real,
    y: real,
    color: string,
    employeeId: string,
    size: real,
    placement: Option<Offset>)

  /** Where an entry's icon is centred: shifted by one and a half icon sizes per unit of offset. */
  function IconPosition(a: Placed): (real, real)
  {
    match a.placement
    case Some(p) => (a.x + p.x * a.size * 1.5, a.y + p.y * a.size * 1.5)
    case None => (a.x, a.y)
  }

  /** An icon placed by a formation offset stays within 0.9 icon sizes of its entry's point on each axis. */
  lemma IconNearItsPoint(a: Placed)
    requires a.size >= 0.0
    requires a.placement.Some? ==> WithinFormation(a.placement.value)
    ensures -0.9 * a.size <= IconPosition(a).0 - a.x <= 0.9 * a.size
    ensures -0.9 * a.size <= IconPosition(a).1 - a.y <= 0.9 * a.size
    ensures a.placement.None? ==> IconPosition(a) == (a.x, a.y)
  {
    match a.placement
    case None =>
      assert IconPosition(a) == (a.x, a.y);
      assert 0.0 <= 0.9 * a.size;
    case Some(p) =>
      ScaledOffset(a.x, p.x, a.size, IconPosition(a).0);
      ScaledOffset(a.y, p.y, a.size, IconPosition(a).1);
  }

  lemma ScaledOffset(anchor: real, c: real, size: real, pos: real)
    requires -0.6 <= c <= 0.6 && size >= 0.0 && pos == anchor + c * size * 1.5
    ensures -0.9 * size <= pos - anchor <= 0.9 * size
  {
    assert pos - anchor == (c * 1.5) * size;
    assert -0.9 <= c * 1.5 <= 0.9;
    if c >= 0.0 {
      assert (c * 1.5) * size <= 0.9 * size;
    } else {
      assert (c * 1.5) * size >= -0.9 * size;
    }
  }

  /**
   * The brightness test of `getTextColor`, with the weights of
   * 0.299, 0.587 and 0.114 scaled to whole numbers: the left side is
   * 1000 times the weighted sum, the right 1000 times half of 255.
   */
  predicate Bright(red: int, green: int, blue: int)
  {
    299 * red + 587 * green + 114 * blue > 127500
  }

  /**
   * `getTextColor`: read the digits after the first character as one
   * number (a text without digits reads as 0, as `NaN` does under the bit
   * operators), take its bytes with the shifts and masks, and pick black
   * on a bright background and white otherwise.
   */
  function GetTextColor(bgColor: string): (r: string)
    ensures r == "#000000" || r == "#ffffff"
  {
    var bytes := Bytes(Decode(bgColor));
    var brightness := (bytes.0 as real * 0.299 + bytes.1 as real * 0.587 + bytes.2 as real * 0.114) / 255.0;
    if brightness > 0.5 then "#000000" else "#ffffff"
  }

  /** On a `#RRGGBB` colour the text is black exactly when the weighted channels pass the brightness test. */
  lemma TextColorOfHexColor(color: string)
    requires IsHexColor(color)
    ensures GetTextColor(color) == if Bright(Channel(color, 0), Channel(color, 1), Channel(color, 2)) then "#000000" else "#ffffff"
  {
    var c0, c1, c2 := Channel(color, 0), Channel(color, 1), Channel(color, 2);
    DecodeColor(color);
    ChannelsOf(Decode(color), c0, c1, c2);
    BrightnessScaled(c0, c1, c2);
  }

  lemma BrightnessScaled(red: int, green: int, blue: int)
    ensures (red as real * 0.299 + green as real * 0.587 + blue as real * 0.114) / 255.0 > 0.5 <==> Bright(red, green, blue)
  {
    var w := red as real * 0.299 + green as real * 0.587 + blue as real * 0.114;
    assert w * 1000.0 == (299 * red + 587 * green + 114 * blue) as real;
  }

  /** A background without hex digits after its first character gets white text. */
  lemma TextColorWithoutDigits(bgColor: string)
    requires bgColor == [] || ParseInt16(bgColor[1..]).None?
    ensures GetTextColor(bgColor) == "#ffffff"
  {
    assert Decode(bgColor) == 0;
    assert Bytes(0) == (0, 0, 0);
  }

  /** Brightening any channel of a colour never turns black text white. */
  lemma BrightIsMonotone(r0: int, g0: int, b0: int, r1: int, g1: int, b1: int)
    requires r0 <= r1 && g0 <= g1 && b0 <= b1 && Bright(r0, g0, b0)
    ensures Bright(r1, g1, b1)
  {
  }

  /** What is drawn for one entry: its icon, centre, size and stroke colour. */
  datatype IconView = IconView(icon: Icon, x: real, y: real, size: real, color: string, employeeId: string)

  function HasIcon(a: Placed): bool
  {
    IconFor(a.activity).Some?
  }

  /** The view drawn for an entry that has an icon. */
  function ViewOf(a: Placed): IconView
    requires HasIcon(a)
  {
    var (x, y) := IconPosition(a);
    IconView(IconFor(a.activity).value, x, y, a.size, GetTextColor(a.color), a.employeeId)
  }

  /** The drawn icons, in entry order; an entry whose activity has no icon draws nothing. */
  function Overlay(activities: seq<Placed>): seq<IconView>
  {
    Drawn(activities, HasIcon, ViewOf)
  }

  /** `map` over the entries with `null` for those `has` rejects, which React leaves out. */
  function Drawn(activities: seq<Placed>, has: Placed -> bool, view: Placed --> IconView): seq<IconView>
    requires forall a :: has(a) ==> view.requires(a)
  {
    if activities == [] then []
    else if has(activities[0]) then [view(activities[0])] + Drawn(activities[1..], has, view)
    else Drawn(activities[1..], has, view)
  }

  /** The views of entries that all pass, one per entry and in order. */
  function Views(shown: seq<Placed>, view: Placed --> IconView): (r: seq<IconView>)
    requires forall k :: 0 <= k < |shown| ==> view.requires(shown[k])
    ensures |r| == |shown|
    ensures forall k :: 0 <= k < |shown| ==> r[k] == view(shown[k])
  {
    seq(|shown|, k requires 0 <= k < |shown| => view(shown[k]))
  }

  /** The overlay draws, in order, one view for each entry that has an icon and for no other. */
  lemma OverlayIsIconEntries(activities: seq<Placed>)
    ensures |Overlay(activities)| == |Filter(activities, HasIcon)|
    ensures forall k :: 0 <= k < |Overlay(activities)| ==> Overlay(activities)[k] == ViewOf(Filter(activities, HasIcon)[k])
  {
    DrawnIsFiltered(activities, HasIcon, ViewOf);
  }

  /** Dropping the rejected entries while mapping is mapping the entries that pass. */
  lemma {:induction false} DrawnIsFiltered(activities: seq<Placed>, has: Placed -> bool, view: Placed --> IconView)
    requires forall a :: has(a) ==> view.requires(a)
    ensures Drawn(activities, has, view) == Views(Filter(activities, has), view)
  {
    if activities != [] {
      var a := activities[0];
      var t := activities[1..];
      DrawnIsFiltered(t, has, view);
      var f := Filter(t, has);
      if has(a) {
        assert Filter(activities, has) == [a] + f;
        ViewsCons(a, f, view);
      } else {
        assert Filter(activities, has) == f;
      }
    }
  }

  lemma ViewsCons(a: Placed, f: seq<Placed>, view: Placed --> IconView)
    requires view.requires(a) && forall k :: 0 <= k < |f| ==> view.requires(f[k])
    ensures Views([a] + f, view) == [view(a)] + Views(f, view)
  {
    var l, r := Views([a] + f, view), [view(a)] + Views(f, view);
    assert |l| == |r|;
    forall k | 0 <= k < |l| ensures l[k] == r[k] {
      if k > 0 {
        assert ([a] + f)[k] == f[k - 1];
      }
    }
  }
}
