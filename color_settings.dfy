/**
 * The colour settings tab: the preset and saved palettes, an editor that
 * can be opened to create or edit one, and the rules deciding whether a
 * palette coming back from the editor is stored. Its state is whether the
 * editor is open, what is being edited and the error shown; saving goes
 * to the colour store.
 */
module ColorSettings {
  import opened Wrappers
  import opened Strs
  import opened ColorConfig
  import opened ColorStore

  /** What the editor was opened on: the palette's name, a copy of its colours, and whether it is a preset. */
  datatype EditingState = EditingState(originalName: string, palette: ColorPalette, isPreset: bool)

  /** The two messages a save can be refused with. */
  datatype SaveError = PresetNameModified | NameConflict

  /** The tab's own state together with the two store fields it changes. */
  datatype TabState = TabState(
    showGenerator: bool,
    editing: Option<EditingState>,
    error: Option<SaveError>,
    globalScheme: string,
    customPalettes: map<string, ColorPalette>)

  /** `COLOR_SCHEMES.some(scheme => scheme.name === name)`. */
  predicate IsPresetName(name: string)
  {
    FindScheme(ColorSchemes(), name).Some?
  }

  /** `handleSave`: the two refusals checked in order, then the save of a non-blank name. */
  function Save(s: TabState, name: string, palette: ColorPalette): TabState
  {
    if s.editing.Some? && s.editing.value.isPreset && name == s.editing.value.originalName then
      s.(error := Some(PresetNameModified))
    else if IsPresetName(name) && (s.editing.None? || s.editing.value.originalName != name) then
      s.(error := Some(NameConflict))
    else if !IsBlank(name) then
      TabState(false, None, None, name, s.customPalettes[name := palette])
    else
      s
  }

  /**
   * `handleEdit`: a preset is opened on a copy of its colours, a saved
   * palette on a copy of its own; a name that is neither changes nothing.
   */
  function Edit(s: TabState, name: string): TabState
  {
    match FindScheme(ColorSchemes(), name)
    case Some(scheme) => s.(editing := Some(EditingState(name, scheme.colors, true)), showGenerator := true)
    case None =>
      if name in s.customPalettes then
        s.(editing := Some(EditingState(name, s.customPalettes[name], false)), showGenerator := true)
      else s
  }

  /** `handleCancel`. */
  function Cancel(s: TabState): TabState
  {
    s.(showGenerator := false, editing := None, error := None)
  }

  /** `handleCreate`: the error shown is left as it is. */
  function Create(s: TabState): TabState
  {
    s.(editing := None, showGenerator := true)
  }

  /** Editing a preset and saving under its own name is refused; nothing is stored or closed. */
  lemma SavePresetUnderOwnNameRefused(s: TabState, palette: ColorPalette)
    requires s.editing.Some? && s.editing.value.isPreset
    ensures var r := Save(s, s.editing.value.originalName, palette);
      r.error == Some(PresetNameModified)
      && r.customPalettes == s.customPalettes && r.globalScheme == s.globalScheme
      && r.showGenerator == s.showGenerator && r.editing == s.editing
  {
  }

  /**
   * A preset's name is refused unless the palette being edited had exactly
   * that name (and is not the preset itself, refused above).
   */
  lemma SavePresetNameRefused(s: TabState, name: string, palette: ColorPalette, i: nat)
    requires i < |DEFAULT_PALETTES| && DEFAULT_PALETTES[i].scheme.name == name
    requires s.editing.None? || s.editing.value.originalName != name
    ensures var r := Save(s, name, palette);
      r.error == Some(NameConflict)
      && r.customPalettes == s.customPalettes && r.globalScheme == s.globalScheme
      && r.showGenerator == s.showGenerator && r.editing == s.editing
  {
    assert ColorSchemes()[i].name == name;
  }

  /** A save that passes both checks with a non-blank name stores, selects, closes and clears. */
  lemma SaveAccepted(s: TabState, name: string, palette: ColorPalette)
    requires !IsBlank(name)
    requires !(s.editing.Some? && s.editing.value.isPreset && name == s.editing.value.originalName)
    requires !IsPresetName(name) || (s.editing.Some? && s.editing.value.originalName == name)
    ensures var r := Save(s, name, palette);
      r.customPalettes == s.customPalettes[name := palette] && r.globalScheme == name
      && !r.showGenerator && r.editing.None? && r.error.None?
  {
  }

  /** A blank name that is not refused changes nothing, not even the error shown. */
  lemma SaveBlankIgnored(s: TabState, name: string, palette: ColorPalette)
    requires IsBlank(name)
    requires !(s.editing.Some? && s.editing.value.isPreset && name == s.editing.value.originalName)
    requires !IsPresetName(name)
    ensures Save(s, name, palette) == s
  {
  }

  /**
   * The states the tab can be in: no saved palette carries a preset's
   * name, and an edit is marked as a preset edit exactly when it was
   * opened on a preset's name.
   */
  predicate TabInvariant(s: TabState)
  {
    (forall k :: k in s.customPalettes ==> !IsPresetName(k))
    && (s.editing.Some? ==> (s.editing.value.isPreset <==> IsPresetName(s.editing.value.originalName)))
  }

  /** Every handler keeps the invariant, so a saved palette never hides a preset. */
  lemma HandlersKeepInvariant(s: TabState, name: string, palette: ColorPalette)
    requires TabInvariant(s)
    ensures TabInvariant(Save(s, name, palette))
    ensures TabInvariant(Edit(s, name))
    ensures TabInvariant(Cancel(s)) && TabInvariant(Create(s))
  {
    var r := Save(s, name, palette);
    if r.customPalettes != s.customPalettes {
      assert !IsPresetName(name);
      assert forall k :: k in r.customPalettes ==> k == name || k in s.customPalettes;
    }
  }

  /**
   * An edit opened on a preset with its name left as it was can never be
   * stored: the editor always hands back the original name then.
   */
  lemma PresetEditUnderOwnNameNeverStored(s: TabState, name: string, palette: ColorPalette)
    requires IsPresetName(name)
    ensures var e := Edit(s, name);
      e.editing == Some(EditingState(name, FindScheme(ColorSchemes(), name).value.colors, true))
      && Save(e, name, palette).customPalettes == s.customPalettes
      && Save(e, name, palette).error == Some(PresetNameModified)
  {
  }

  /** Editing a saved palette and saving under the same name overwrites it and selects it. */
  lemma EditThenSaveOverwrites(s: TabState, name: string, palette: ColorPalette)
    requires TabInvariant(s) && name in s.customPalettes && !IsBlank(name)
    ensures var e := Edit(s, name);
      e.editing == Some(EditingState(name, s.customPalettes[name], false)) && e.showGenerator
      && Save(e, name, palette).customPalettes == s.customPalettes[name := palette]
      && Save(e, name, palette).globalScheme == name
  {
  }

  /** Editing a name that is neither a preset nor saved leaves the tab as it was. */
  lemma EditUnknownIgnored(s: TabState, name: string)
    requires !IsPresetName(name) && name !in s.customPalettes
    ensures Edit(s, name) == s
  {
  }

  /** Under the invariant a selected preset name always shows that preset's colours. */
  lemma PresetSchemeShowsPreset(s: TabState, i: nat)
    requires TabInvariant(s) && i < |DEFAULT_PALETTES| && DEFAULT_PALETTES[i].scheme.name == s.globalScheme
    ensures exists j :: (0 <= j < |DEFAULT_PALETTES| && DEFAULT_PALETTES[j].scheme.name == s.globalScheme
      && ChartColorsFor(s.globalScheme, s.customPalettes) == DEFAULT_PALETTES[j].scheme.colors)
  {
    assert ColorSchemes()[i].name == s.globalScheme;
    ChartColorsMeaning(s.globalScheme, s.customPalettes);
  }

  /** The tab component: its three pieces of state and the store it saves to. */
  class SettingsTab {
    var showGenerator: bool
    var editingState: Option<EditingState>
    var error: Option<SaveError>
    const store: Store

    constructor(store: Store)
      ensures this.store == store
      ensures !showGenerator && editingState.None? && error.None?
    {
      this.store := store;
      showGenerator := false;
      editingState := None;
      error := None;
    }

    function State(): TabState
      reads this, store
    {
      TabState(showGenerator, editingState, error, store.globalScheme, store.customPalettes)
    }

    method HandleSave(name: string, palette: ColorPalette)
      modifies this, store
      ensures State() == Save(old(State()), name, palette)
    {
      if editingState.Some? && editingState.value.isPreset && name == editingState.value.originalName {
        error := Some(PresetNameModified);
        return;
      }
      if IsPresetName(name) && (editingState.None? || editingState.value.originalName != name) {
        error := Some(NameConflict);
        return;
      }
      if Trim(name) != "" {
        store.SaveCustomPalette(name, palette);
        store.SetGlobalScheme(name);
        showGenerator := false;
        editingState := None;
        error := None;
      }
    }

    method HandleEdit(name: string)
      modifies this
      ensures State() == Edit(old(State()), name)
    {
      var presetScheme := FindScheme(ColorSchemes(), name);
      var palette: ColorPalette;
      if presetScheme.Some? {
        palette := presetScheme.value.colors;
      } else {
        if name !in store.customPalettes {
          return;
        }
        palette := store.customPalettes[name];
      }
      editingState := Some(EditingState(name, palette, presetScheme.Some?));
      showGenerator := true;
    }

    method HandleCancel()
      modifies this
      ensures State() == Cancel(old(State()))
    {
      showGenerator := false;
      editingState := None;
      error := None;
    }

    method HandleCreate()
      modifies this
      ensures State() == Create(old(State()))
    {
      editingState := None;
      showGenerator := true;
    }
  }
}
