/**
 * The region-management panel: fuzzy matching of related region names,
 * the set of selected regions, loading a combination for editing,
 * committing a combination to the store, and the regions still free to
 * pick.
 */
module RegionManagement {
  import opened Wrappers
  import opened Seqs
  import opened Strs
  import opened RegionStore
  import opened RegionCalculations

  datatype MatchType = ExactPattern | RelatedPattern

  datatype FuzzyMatch = FuzzyMatch(region: string, score: real, matchType: MatchType)

  /** The lower-cased name without its last `_`-separated segment. */
  function BasePattern(name: string): string
  {
    var parts := Split(ToLower(name), '_');
    Join(parts[..|parts| - 1], '_')
  }

  /** The lower-cased name's first `_`-separated segment. */
  function FirstPart(name: string): string
  {
    Split(ToLower(name), '_')[0]
  }

  predicate IsExact(r: string, region: string)
  {
    r != region && BasePattern(r) == BasePattern(region)
  }

  predicate IsRelated(r: string, region: string)
  {
    r != region && FirstPart(r) == FirstPart(region)
  }

  /** The exact-pattern matches among the first `n` candidates, in order. */
  function ExactUpTo(regions: seq<string>, n: nat, region: string): seq<FuzzyMatch>
    requires n <= |regions|
  {
    if n == 0 then []
    else
      var previous := ExactUpTo(regions, n - 1, region);
      if IsExact(regions[n - 1], region) then previous + [FuzzyMatch(regions[n - 1], 0.0, ExactPattern)] else previous
  }

  /** The related-pattern matches among the first `n` candidates, in order. */
  function RelatedUpTo(regions: seq<string>, n: nat, region: string): seq<FuzzyMatch>
    requires n <= |regions|
  {
    if n == 0 then []
    else
      var previous := RelatedUpTo(regions, n - 1, region);
      if IsRelated(regions[n - 1], region) then previous + [FuzzyMatch(regions[n - 1], 0.5, RelatedPattern)] else previous
  }

  /** What `findMatches` returns: the exact matches, or the related ones when there are none. */
  function Matches(regions: seq<string>, region: string): seq<FuzzyMatch>
  {
    var exact := ExactUpTo(regions, |regions|, region);
    if |exact| == 0 then RelatedUpTo(regions, |regions|, region) else exact
  }

  /** `findMatches`: two passes over the candidate regions pushing into `matches`. */
  method FindMatches(regions: seq<string>, region: string) returns (matches: seq<FuzzyMatch>)
    ensures matches == Matches(regions, region)
  {
    matches := [];
    var i := 0;
    while i < |regions|
      invariant 0 <= i <= |regions|
      invariant matches == ExactUpTo(regions, i, region)
    {
      var r := regions[i];
      if r != region {
        if BasePattern(region) == BasePattern(r) {
          matches := matches + [FuzzyMatch(r, 0.0, ExactPattern)];
        }
      }
      i := i + 1;
    }
    if |matches| == 0 {
      i := 0;
      while i < |regions|
        invariant 0 <= i <= |regions|
        invariant matches == RelatedUpTo(regions, i, region)
      {
        var r := regions[i];
        if r != region {
          if FirstPart(region) == FirstPart(r) {
            matches := matches + [FuzzyMatch(r, 0.5, RelatedPattern)];
          }
        }
        i := i + 1;
      }
    }
  }

  lemma {:induction false} ExactUpToMembers(regions: seq<string>, n: nat, region: string)
    requires n <= |regions|
    ensures forall m :: m in ExactUpTo(regions, n, region) <==>
      m.matchType == ExactPattern && m.score == 0.0 && IsExact(m.region, region) && m.region in regions[..n]
  {
    if n > 0 {
      ExactUpToMembers(regions, n - 1, region);
      assert regions[..n] == regions[..n - 1] + [regions[n - 1]];
    }
  }

  lemma {:induction false} RelatedUpToMembers(regions: seq<string>, n: nat, region: string)
    requires n <= |regions|
    ensures forall m :: m in RelatedUpTo(regions, n, region) <==>
      m.matchType == RelatedPattern && m.score == 0.5 && IsRelated(m.region, region) && m.region in regions[..n]
  {
    if n > 0 {
      RelatedUpToMembers(regions, n - 1, region);
      assert regions[..n] == regions[..n - 1] + [regions[n - 1]];
    }
  }

  /**
   * The matches never include the clicked region; when some other region
   * shares its base pattern, the matches are exactly those regions with
   * score 0; otherwise they are exactly the regions sharing its first
   * segment, with score 0.5.
   */
  lemma MatchesMeaning(regions: seq<string>, region: string)
    ensures forall m :: m in Matches(regions, region) ==> m.region in regions && m.region != region
    ensures (exists r :: r in regions && IsExact(r, region)) ==>
      forall m :: m in Matches(regions, region) <==>
        m.region in regions && IsExact(m.region, region) && m.score == 0.0 && m.matchType == ExactPattern
    ensures (forall r :: r in regions ==> !IsExact(r, region)) ==>
      forall m :: m in Matches(regions, region) <==>
        m.region in regions && IsRelated(m.region, region) && m.score == 0.5 && m.matchType == RelatedPattern
  {
    ExactUpToMembers(regions, |regions|, region);
    RelatedUpToMembers(regions, |regions|, region);
    assert regions[..|regions|] == regions;
    var exact := ExactUpTo(regions, |regions|, region);
    if exists r :: r in regions && IsExact(r, region) {
      var r :| r in regions && IsExact(r, region);
      assert FuzzyMatch(r, 0.0, ExactPattern) in exact;
    } else {
      NoExactMatches(regions, |regions|, region);
    }
  }

  lemma {:induction false} NoExactMatches(regions: seq<string>, n: nat, region: string)
    requires n <= |regions|
    requires forall r :: r in regions ==> !IsExact(r, region)
    ensures ExactUpTo(regions, n, region) == []
  {
    if n > 0 {
      assert regions[n - 1] in regions;
      NoExactMatches(regions, n - 1, region);
    }
  }

  /** A delete that would leave exactly one region clears the selection instead. */
  function AfterRemove(s: seq<string>, x: string): (r: seq<string>)
    ensures |r| != 1
    ensures r == [] || forall y :: y in r <==> y in s && y != x
  {
    var d := Without(s, x);
    if |d| == 1 then [] else d
  }

  /** Clicking a region toggles its membership in the selection. */
  function Toggle(s: seq<string>, x: string): seq<string>
  {
    if x in s then AfterRemove(s, x) else s + [x]
  }

  /**
   * Toggling keeps the selection duplicate-free; an unselected region
   * becomes selected at the end; a selected one leaves, and the others
   * stay unless exactly one would be left, in which case none is.
   */
  lemma ToggleMeaning(s: seq<string>, x: string)
    requires Distinct(s)
    ensures Distinct(Toggle(s, x))
    ensures x !in s ==> Toggle(s, x) == s + [x]
    ensures x in s ==> x !in Toggle(s, x)
    ensures x in s && |s| != 2 ==> forall y :: y in Toggle(s, x) <==> y in s && y != x
    ensures x in s && |s| == 2 ==> Toggle(s, x) == []
  {
    WithoutDistinct(s, x);
  }

  /** Selecting and then deselecting the same region restores any selection other than a single region. */
  lemma ToggleTwice(s: seq<string>, x: string)
    requires Distinct(s) && x !in s && |s| != 1
    ensures Toggle(Toggle(s, x), x) == s
  {
    assert Distinct(s + [x]);
    WithoutDistinct(s + [x], x);
    WithoutOfAppended(s, x);
  }

  /** `combinations.find(c => c.name === name)`. */
  function FindCombination(combos: seq<Combination>, name: string): (r: Option<Combination>)
    ensures r.None? <==> forall j :: 0 <= j < |combos| ==> combos[j].name != name
    ensures r.Some? ==> r.value in combos && r.value.name == name
  {
    match FindNamed(combos, name)
    case Some(k) => Some(combos[k])
    case None => None
  }

  /** The regions of any combination, minus those of the one being edited. */
  function CombinedRegions(combos: seq<Combination>, editing: Option<string>): set<string>
  {
    var all := set c, r | c in combos && r in c.regions :: r;
    if Truthy(editing) then
      match FindCombination(combos, editing.value)
      case Some(current) => all - set r | r in current.regions
      case None => all
    else all
  }

  /**
   * `availableRegions`: the panel's regions, in order, that are neither
   * excluded nor held by a combination other than the one being edited.
   */
  function AvailableRegions(regions: seq<string>, combos: seq<Combination>, editing: Option<string>, excluded: set<string>): (r: seq<string>)
    ensures forall x :: x in r <==>
      x in regions && x !in excluded
      && ((forall c :: c in combos ==> x !in c.regions)
          || (Truthy(editing) && FindCombination(combos, editing.value).Some?
              && x in FindCombination(combos, editing.value).value.regions))
    ensures |r| <= |regions|
  {
    var combined := CombinedRegions(combos, editing);
    Filter(Filter(regions, (x: string) => x !in combined), (x: string) => x !in excluded)
  }

  /** The panel's state, with the store it commits combinations to. */
  class RegionManagementState {
    /** `selectedRegions`, in insertion order. */
    var selected: seq<string>
    var newName: string
    var fuzzyMatches: seq<FuzzyMatch>
    var activeRegion: Option<string>
    var editingCombination: Option<string>
    const store: RegionStoreState

    ghost predicate Valid()
      reads this
    {
      Distinct(selected)
    }

    constructor (store: RegionStoreState)
      ensures Valid()
      ensures this.store == store
      ensures selected == [] && newName == "" && fuzzyMatches == [] && activeRegion.None? && editingCombination.None?
    {
      selected := [];
      newName := "";
      fuzzyMatches := [];
      activeRegion := None;
      editingCombination := None;
      this.store := store;
    }

    /** `handleRegionClick`: toggles the active region with its matches, and the region's selection. */
    method HandleRegionClick(regions: seq<string>, region: string)
      requires Valid()
      modifies this
      ensures Valid()
      ensures old(activeRegion) == Some(region) ==> activeRegion.None? && fuzzyMatches == []
      ensures old(activeRegion) != Some(region) ==> activeRegion == Some(region) && fuzzyMatches == Matches(regions, region)
      ensures selected == Toggle(old(selected), region)
      ensures newName == old(newName) && editingCombination == old(editingCombination)
    {
      if activeRegion == Some(region) {
        activeRegion := None;
        fuzzyMatches := [];
      } else {
        activeRegion := Some(region);
        fuzzyMatches := FindMatches(regions, region);
      }
      ToggleMeaning(selected, region);
      var newSelected := selected;
      if region in newSelected {
        newSelected := Without(newSelected, region);
        if |newSelected| == 1 {
          newSelected := [];
        }
      } else {
        newSelected := newSelected + [region];
      }
      selected := newSelected;
    }

    /** `removeSelectedRegion`: deletes the region, clearing the selection when one would be left. */
    method RemoveSelectedRegion(region: string)
      requires Valid()
      modifies this
      ensures Valid()
      ensures selected == AfterRemove(old(selected), region)
      ensures newName == old(newName) && editingCombination == old(editingCombination)
      ensures activeRegion == old(activeRegion) && fuzzyMatches == old(fuzzyMatches)
    {
      WithoutDistinct(selected, region);
      var newSelected := Without(selected, region);
      if |newSelected| == 1 {
        newSelected := [];
      }
      selected := newSelected;
    }

    /** `handleEditCombination`: loads a known combination's name and regions; an unknown name changes nothing. */
    method HandleEditCombination(name: string)
      requires Valid()
      modifies this
      ensures Valid()
      ensures FindCombination(store.combinations, name).None? ==>
        selected == old(selected) && newName == old(newName) && editingCombination == old(editingCombination)
      ensures FindCombination(store.combinations, name).Some? ==>
        editingCombination == Some(name) && newName == name
        && selected == Dedup(FindCombination(store.combinations, name).value.regions)
      ensures activeRegion == old(activeRegion) && fuzzyMatches == old(fuzzyMatches)
    {
      var combination := FindCombination(store.combinations, name);
      if combination.Some? {
        editingCombination := Some(name);
        newName := name;
        DedupDistinct(combination.value.regions);
        selected := Dedup(combination.value.regions);
      }
    }

    /**
     * `handleCombine`: with a non-empty name and at least two selected
     * regions, updates the combination being edited (or adds a new one)
     * and resets the form; otherwise nothing happens.
     */
    method HandleCombine()
      requires Valid()
      modifies this, store
      ensures Valid()
      ensures !(old(newName) != "" && |old(selected)| >= 2) ==>
        store.combinations == old(store.combinations)
        && selected == old(selected) && newName == old(newName) && editingCombination == old(editingCombination)
      ensures old(newName) != "" && |old(selected)| >= 2 ==>
        selected == [] && newName == "" && editingCombination.None?
        && store.combinations ==
          if Truthy(old(editingCombination))
          then
            if ValidateCombinationFixed(old(store.combinations), old(newName), old(selected), old(editingCombination))
            then Replaced(old(store.combinations), old(editingCombination).value, old(newName), old(selected))
            else old(store.combinations)
          else
            if ValidateCombinationFixed(old(store.combinations), old(newName), old(selected), None)
            then old(store.combinations) + [Combination(old(newName), old(selected))]
            else old(store.combinations)
      ensures activeRegion == old(activeRegion) && fuzzyMatches == old(fuzzyMatches)
    {
      if newName != "" && |selected| >= 2 {
        if Truthy(editingCombination) {
          store.UpdateCombination(editingCombination.value, newName, selected);
        } else {
          store.AddCombination(newName, selected);
        }
        newName := "";
        selected := [];
        editingCombination := None;
      }
    }
  }
}
