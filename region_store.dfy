/**
 * The region-combination store: a list of named combinations of raw
 * layout regions, guarded by a validation rule on every add and update.
 */
module RegionStore {
  import opened Wrappers
  import opened Seqs
  import opened Strs

  datatype Combination = Combination(name: string, regions: seq<string>)

  /** JavaScript truthiness of the optional `oldName` argument: absent and "" are both false. */
  predicate Truthy(oldName: Option<string>)
  {
    oldName.Some? && oldName.value != ""
  }

  /** `c.name !== oldName`: whether a combination is one other than the one being edited. */
  predicate OtherThan(c: Combination, oldName: Option<string>)
  {
    oldName.None? || c.name != oldName.value
  }

  predicate NameTaken(combos: seq<Combination>, name: string)
  {
    exists i :: 0 <= i < |combos| && combos[i].name == name
  }

  /** The regions of every combination other than `oldName`, concatenated. */
  function RegionsOfOthers(combos: seq<Combination>, oldName: Option<string>): (used: seq<string>)
    ensures forall i, r :: 0 <= i < |combos| && OtherThan(combos[i], oldName) && r in combos[i].regions ==> r in used
    ensures forall r :: r in used ==>
      exists i :: 0 <= i < |combos| && OtherThan(combos[i], oldName) && r in combos[i].regions
  {
    if combos == [] then []
    else
      var rest := RegionsOfOthers(combos[1..], oldName);
      assert forall i :: 1 <= i < |combos| ==> combos[i] == combos[1..][i - 1];
      (if OtherThan(combos[0], oldName) then combos[0].regions else []) + rest
  }

  predicate Overlaps(regions: seq<string>, used: seq<string>)
  {
    exists k :: 0 <= k < |regions| && regions[k] in used
  }

  /**
   * The validation rule as written: a non-blank name and at least two
   * regions; an update that keeps its (truthy) name is accepted at once;
   * otherwise the name must be unused and no region may belong to a
   * combination other than the one being edited.
   */
  function ValidateCombination(combos: seq<Combination>, name: string, regions: seq<string>, oldName: Option<string>): (ok: bool)
    ensures IsBlank(name) || |regions| < 2 ==> !ok
    ensures !IsBlank(name) && |regions| >= 2 && Truthy(oldName) && name == oldName.value ==> ok
    ensures ok && !(Truthy(oldName) && name == oldName.value) ==>
      (forall i :: 0 <= i < |combos| ==> combos[i].name != name) &&
      (forall i, k :: 0 <= i < |combos| && OtherThan(combos[i], oldName) && 0 <= k < |regions| ==> regions[k] !in combos[i].regions)
    ensures !IsBlank(name) && |regions| >= 2
      && (forall i :: 0 <= i < |combos| ==> combos[i].name != name)
      && (forall i, k :: 0 <= i < |combos| && OtherThan(combos[i], oldName) && 0 <= k < |regions| ==> regions[k] !in combos[i].regions)
      ==> ok
  {
    if IsBlank(name) || |regions| < 2 then false
    else if Truthy(oldName) && name == oldName.value then true
    else if NameTaken(combos, name) then false
    else !Overlaps(regions, RegionsOfOthers(combos, oldName))
  }

  /**
   * The evidently intended rule: keeping one's own name only exempts the
   * update from the name check; the region-overlap check always applies.
   */
  function ValidateCombinationFixed(combos: seq<Combination>, name: string, regions: seq<string>, oldName: Option<string>): (ok: bool)
    ensures ok ==> !IsBlank(name) && |regions| >= 2
    ensures ok ==> forall i, k :: 0 <= i < |combos| && OtherThan(combos[i], oldName) && 0 <= k < |regions| ==> regions[k] !in combos[i].regions
    ensures ok && !(Truthy(oldName) && name == oldName.value) ==> forall i :: 0 <= i < |combos| ==> combos[i].name != name
    ensures !IsBlank(name) && |regions| >= 2
      && ((Truthy(oldName) && name == oldName.value) || forall i :: 0 <= i < |combos| ==> combos[i].name != name)
      && (forall i, k :: 0 <= i < |combos| && OtherThan(combos[i], oldName) && 0 <= k < |regions| ==> regions[k] !in combos[i].regions)
      ==> ok
  {
    if IsBlank(name) || |regions| < 2 then false
    else if !(Truthy(oldName) && name == oldName.value) && NameTaken(combos, name) then false
    else !Overlaps(regions, RegionsOfOthers(combos, oldName))
  }

  /** The two rules differ only for an update that keeps its name. */
  lemma FixedAgreesUnlessSameName(combos: seq<Combination>, name: string, regions: seq<string>, oldName: Option<string>)
    requires !(Truthy(oldName) && name == oldName.value)
    ensures ValidateCombinationFixed(combos, name, regions, oldName) == ValidateCombination(combos, name, regions, oldName)
  {
  }

  /** The store invariant: names are distinct and no region belongs to two different combinations. */
  ghost predicate WellFormed(combos: seq<Combination>)
  {
    (forall i, j :: 0 <= i < j < |combos| ==> combos[i].name != combos[j].name) &&
    (forall i, j, r :: 0 <= i < |combos| && 0 <= j < |combos| && i != j && r in combos[i].regions ==> r !in combos[j].regions)
  }

  /** The list after `updateCombination` has passed validation: every entry named `oldName` replaced. */
  function Replaced(combos: seq<Combination>, oldName: string, newName: string, regions: seq<string>): (r: seq<Combination>)
    ensures |r| == |combos|
    ensures forall i :: 0 <= i < |combos| ==>
      r[i] == if combos[i].name == oldName then Combination(newName, regions) else combos[i]
  {
    seq(|combos|, i requires 0 <= i < |combos| => if combos[i].name == oldName then Combination(newName, regions) else combos[i])
  }

  /** `find(c => c.regions.includes(region))`: the first combination containing the region. */
  function FirstContaining(combos: seq<Combination>, region: string): (k: Option<nat>)
    ensures k.Some? ==>
      k.value < |combos| && region in combos[k.value].regions
      && forall j :: 0 <= j < k.value ==> region !in combos[j].regions
    ensures k.None? ==> forall j :: 0 <= j < |combos| ==> region !in combos[j].regions
  {
    if combos == [] then None
    else if region in combos[0].regions then Some(0)
    else
      var k := FirstContaining(combos[1..], region);
      if k.Some? then Some(k.value + 1) else None
  }

  /** `getCombinedRegion` on a given list: the first combination containing the region, else the region itself. */
  function CombinedRegion(combos: seq<Combination>, region: string): (r: string)
    ensures (forall j :: 0 <= j < |combos| ==> region !in combos[j].regions) ==> r == region
    ensures forall k ::
      (0 <= k < |combos| && region in combos[k].regions && forall j :: 0 <= j < k ==> region !in combos[j].regions)
      ==> r == combos[k].name
  {
    match FirstContaining(combos, region)
    case Some(k) => combos[k].name
    case None => region
  }

  /** Under the store invariant a region names the unique combination that holds it. */
  lemma CombinedRegionUnique(combos: seq<Combination>, region: string, k: nat)
    requires WellFormed(combos)
    requires k < |combos| && region in combos[k].regions
    ensures CombinedRegion(combos, region) == combos[k].name
  {
  }

  /** Persisted state of version 0 gets an empty list when it has none; later versions load as stored. */
  function Migrate(persisted: Option<seq<Combination>>, version: int): (r: Option<seq<Combination>>)
    ensures version == 0 ==> r.Some? && (persisted.Some? ==> r == persisted) && (persisted.None? ==> r == Some([]))
    ensures version != 0 ==> r == persisted
  {
    if version == 0 then Some(persisted.GetOr([])) else persisted
  }

  class RegionStoreState {
    var combinations: seq<Combination>

    constructor ()
      ensures combinations == []
    {
      combinations := [];
    }

    /** Appends `{name, regions}` when the combination is valid; otherwise leaves the store alone. */
    method AddCombination(name: string, regions: seq<string>)
      modifies this
      ensures combinations ==
        if ValidateCombinationFixed(old(combinations), name, regions, None)
        then old(combinations) + [Combination(name, regions)]
        else old(combinations)
    {
      if ValidateCombinationFixed(combinations, name, regions, None) {
        combinations := combinations + [Combination(name, regions)];
      }
    }

    /** Drops every combination with that name, keeping the others in order. */
    method RemoveCombination(name: string)
      modifies this
      ensures combinations == Filter(old(combinations), (c: Combination) => c.name != name)
    {
      combinations := Filter(combinations, (c: Combination) => c.name != name);
    }

    /** Replaces every combination named `oldName` by `{newName, regions}` when the update is valid. */
    method UpdateCombination(oldName: string, newName: string, regions: seq<string>)
      modifies this
      ensures combinations ==
        if ValidateCombinationFixed(old(combinations), newName, regions, Some(oldName))
        then Replaced(old(combinations), oldName, newName, regions)
        else old(combinations)
    {
      if ValidateCombinationFixed(combinations, newName, regions, Some(oldName)) {
        combinations := Replaced(combinations, oldName, newName, regions);
      }
    }

    function GetCombinedRegion(region: string): (r: string)
      reads this
      ensures (forall j :: 0 <= j < |combinations| ==> region !in combinations[j].regions) ==> r == region
      ensures forall k ::
        (0 <= k < |combinations| && region in combinations[k].regions && forall j :: 0 <= j < k ==> region !in combinations[j].regions)
        ==> r == combinations[k].name
    {
      CombinedRegion(combinations, region)
    }
  }

  /** A valid add keeps the store invariant. */
  lemma AddPreservesWellFormed(combos: seq<Combination>, name: string, regions: seq<string>)
    requires WellFormed(combos)
    requires ValidateCombination(combos, name, regions, None)
    ensures WellFormed(combos + [Combination(name, regions)])
  {
    var r := combos + [Combination(name, regions)];
    forall i, j, x | 0 <= i < |r| && 0 <= j < |r| && i != j && x in r[i].regions
      ensures x !in r[j].regions
    {
      if i == |combos| {
        var k :| 0 <= k < |regions| && regions[k] == x;
        assert regions[k] !in combos[j].regions;
      } else if j == |combos| {
        assert forall k :: 0 <= k < |regions| ==> regions[k] !in combos[i].regions;
      }
    }
  }

  /** Removing keeps the store invariant. */
  lemma RemovePreservesWellFormed(combos: seq<Combination>, name: string)
    requires WellFormed(combos)
    ensures WellFormed(Filter(combos, (c: Combination) => c.name != name))
  {
    SubsequencePreservesWellFormed(combos, (c: Combination) => c.name != name);
  }

  lemma {:induction false} SubsequencePreservesWellFormed(combos: seq<Combination>, p: Combination -> bool)
    requires WellFormed(combos)
    ensures WellFormed(Filter(combos, p))
  {
    if combos != [] {
      var tail := combos[1..];
      assert WellFormed(tail) by {
        assert forall i :: 0 <= i < |tail| ==> tail[i] == combos[i + 1];
      }
      SubsequencePreservesWellFormed(tail, p);
      if p(combos[0]) {
        var rest := Filter(tail, p);
        forall i | 0 <= i < |rest| ensures Compatible(combos[0], rest[i]) {
          assert rest[i] in tail;
          var j :| 0 <= j < |tail| && tail[j] == rest[i];
          assert combos[j + 1] == rest[i];
        }
        ConsWellFormed(combos[0], rest);
        assert Filter(combos, p) == [combos[0]] + rest;
      }
    }
  }

  /** Two combinations that may stand side by side: different names, no shared region. */
  predicate Compatible(a: Combination, b: Combination)
  {
    a.name != b.name && forall x :: x in a.regions ==> x !in b.regions
  }

  /** A combination compatible with every one of a well-formed list can be put in front of it. */
  lemma ConsWellFormed(c: Combination, rest: seq<Combination>)
    requires WellFormed(rest)
    requires forall i :: 0 <= i < |rest| ==> Compatible(c, rest[i])
    ensures WellFormed([c] + rest)
  {
    var r := [c] + rest;
    forall i, j | 0 <= i < j < |r| ensures r[i].name != r[j].name {
      if i > 0 {
        assert r[i] == rest[i - 1] && r[j] == rest[j - 1];
      } else {
        assert r[j] == rest[j - 1];
      }
    }
    forall i, j, x | 0 <= i < |r| && 0 <= j < |r| && i != j && x in r[i].regions
      ensures x !in r[j].regions
    {
      if i == 0 {
        assert r[j] == rest[j - 1] && Compatible(c, rest[j - 1]);
      } else if j == 0 {
        assert r[i] == rest[i - 1] && Compatible(c, rest[i - 1]);
      } else {
        assert r[i] == rest[i - 1] && r[j] == rest[j - 1];
      }
    }
  }

  /** Removing twice is removing once. */
  lemma RemoveIdempotent(combos: seq<Combination>, name: string)
    ensures Filter(Filter(combos, (c: Combination) => c.name != name), (c: Combination) => c.name != name)
      == Filter(combos, (c: Combination) => c.name != name)
  {
    FilterIdempotent(combos, (c: Combination) => c.name != name);
  }

  /** After removing a name, no combination of that name is left. */
  lemma RemoveLeavesNoneNamed(combos: seq<Combination>, name: string)
    ensures forall c :: c in Filter(combos, (c: Combination) => c.name != name) ==> c.name != name
  {
  }

  /** An update naming no existing combination leaves the list unchanged. */
  lemma UpdateUnknownIsNoOp(combos: seq<Combination>, oldName: string, newName: string, regions: seq<string>)
    requires forall i :: 0 <= i < |combos| ==> combos[i].name != oldName
    ensures Replaced(combos, oldName, newName, regions) == combos
  {
  }

  /**
   * With the intended rule every accepted update keeps the store
   * invariant, including one that keeps its name.
   */
  lemma UpdateFixedPreservesWellFormed(combos: seq<Combination>, oldName: string, newName: string, regions: seq<string>)
    requires WellFormed(combos)
    requires ValidateCombinationFixed(combos, newName, regions, Some(oldName))
    ensures WellFormed(Replaced(combos, oldName, newName, regions))
  {
    var r := Replaced(combos, oldName, newName, regions);
    forall i, j | 0 <= i < j < |r| ensures r[i].name != r[j].name {
      if combos[i].name == oldName && combos[j].name == oldName {
        assert false;
      } else if combos[i].name == oldName {
        if newName == oldName {
          assert r[j] == combos[j];
        } else {
          assert !(Truthy(Some(oldName)) && newName == oldName);
        }
      } else if combos[j].name == oldName {
        if newName != oldName {
          assert !(Truthy(Some(oldName)) && newName == oldName);
        }
      }
    }
    forall i, j, x | 0 <= i < |r| && 0 <= j < |r| && i != j && x in r[i].regions
      ensures x !in r[j].regions
    {
      if combos[i].name == oldName && combos[j].name == oldName {
        assert false;
      } else if combos[i].name == oldName {
        var k :| 0 <= k < |regions| && regions[k] == x;
        assert OtherThan(combos[j], Some(oldName));
      } else if combos[j].name == oldName {
        assert OtherThan(combos[i], Some(oldName));
        assert forall k :: 0 <= k < |regions| ==> regions[k] !in combos[i].regions;
      }
    }
  }

  /** Two combinations that share no region. */
  const SAME_NAME_EXAMPLE: seq<Combination> := [Combination("AB", ["A", "B"]), Combination("CD", ["C", "D"])]

  /**
   * As written, an update that keeps its name skips the overlap check and
   * can put a region into two combinations.
   */
  lemma UpdateSameNameBreaksWellFormed()
    ensures WellFormed(SAME_NAME_EXAMPLE)
    ensures ValidateCombination(SAME_NAME_EXAMPLE, "AB", ["B", "C"], Some("AB"))
    ensures !ValidateCombinationFixed(SAME_NAME_EXAMPLE, "AB", ["B", "C"], Some("AB"))
    ensures !WellFormed(Replaced(SAME_NAME_EXAMPLE, "AB", "AB", ["B", "C"]))
  {
    ExampleWellFormed();
    ExampleNameNotBlank();
    ExampleOverlaps();
    ExampleBroken();
  }

  lemma ExampleNameNotBlank()
    ensures !IsBlank("AB")
  {
    var s: string := "AB";
    assert s[0] == 'A' && s[|s| - 1] == 'B';
    assert TrimStart(s) == s;
    assert TrimEnd(s) == s;
  }

  /** After the example update both combinations hold `C`. */
  lemma ExampleBroken()
    ensures !WellFormed(Replaced(SAME_NAME_EXAMPLE, "AB", "AB", ["B", "C"]))
  {
    var r := Replaced(SAME_NAME_EXAMPLE, "AB", "AB", ["B", "C"]);
    assert r[0].regions == ["B", "C"] && r[1] == SAME_NAME_EXAMPLE[1];
    assert "C" in r[0].regions && "C" in r[1].regions;
  }

  lemma ExampleWellFormed()
    ensures WellFormed(SAME_NAME_EXAMPLE)
  {
    var combos := SAME_NAME_EXAMPLE;
    assert combos[0].regions == ["A", "B"] && combos[1].regions == ["C", "D"];
    forall x | x in combos[0].regions ensures x !in combos[1].regions {}
    forall x | x in combos[1].regions ensures x !in combos[0].regions {}
  }

  /** The new regions of the example update meet the other combination's. */
  lemma ExampleOverlaps()
    ensures Overlaps(["B", "C"], RegionsOfOthers(SAME_NAME_EXAMPLE, Some("AB")))
  {
    var combos := SAME_NAME_EXAMPLE;
    assert OtherThan(combos[1], Some("AB")) && "C" in combos[1].regions;
    assert "C" in RegionsOfOthers(combos, Some("AB"));
    assert ["B", "C"][1] == "C";
  }
}
