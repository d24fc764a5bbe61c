/** The settings sidebar's activity switches. */
module SettingsSidebar {
  import opened Seqs
  import opened Types

  /**
   * `toggleActivity`: new settings whose hidden set is a copy of the old
   * one with `activity` flipped; every other field is carried over.
   */
  function ToggleActivity(settings: FilterSettings, activity: string): (r: FilterSettings)
    ensures activity in r.hiddenActivities <==> activity !in settings.hiddenActivities
    ensures forall other :: other != activity ==> (other in r.hiddenActivities <==> other in settings.hiddenActivities)
    ensures r.selectedDateRange == settings.selectedDateRange
    ensures r.selectedEmployees == settings.selectedEmployees && r.selectedRegions == settings.selectedRegions
  {
    settings.(hiddenActivities := ToggleMember(settings.hiddenActivities, activity))
  }

  /** Flipping the same switch twice gives back the original settings. */
  lemma ToggleTwiceRestores(settings: FilterSettings, activity: string)
    ensures ToggleActivity(ToggleActivity(settings, activity), activity) == settings
  {
    ToggleMemberTwice(settings.hiddenActivities, activity);
  }
}
