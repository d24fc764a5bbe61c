/**
 * The activity name tables: for each language, the name shown for each of
 * the eight activity types, the translation of a name and the reverse
 * lookup from a shown name back to the activity type.
 */
module ActivityTranslations {
  import opened Wrappers

  datatype Language = En | De

  /** One entry of a table: the activity type and its shown name. */
  datatype Entry = Entry(activity: string, shown: string)

  /** The English table, in declaration order. */
  const EN_ACTIVITIES: seq<Entry> := [
    Entry("Handle center", "Handle center"),
    Entry("Sit", "Sit"),
    Entry("Walk", "Walk"),
    Entry("Handle up", "Handle up"),
    Entry("Stand", "Stand"),
    Entry("Handle down", "Handle down"),
    Entry("Drive", "Drive"),
    Entry("Unknown", "Unknown")
  ]

  /** The German table, in declaration order. */
  const DE_ACTIVITIES: seq<Entry> := [
    Entry("Handle center", "Mittig greifen"),
    Entry("Sit", "Sitzen"),
    Entry("Walk", "Gehen"),
    Entry("Handle up", "Nach oben greifen"),
    Entry("Stand", "Stehen"),
    Entry("Handle down", "Nach unten greifen"),
    Entry("Drive", "Fahren"),
    Entry("Unknown", "Unbekannt")
  ]

  /** `activityTranslations[language]`. */
  function TableOf(language: Language): (t: seq<Entry>)
    ensures |t| == 8
  {
    match language
    case En => EN_ACTIVITIES
    case De => DE_ACTIVITIES
  }

  /** `table[activity]`: the shown name of the first entry for that activity. */
  function ShownName(table: seq<Entry>, activity: string): (r: Option<string>)
    ensures r.None? <==> forall i :: 0 <= i < |table| ==> table[i].activity != activity
    ensures r.Some? ==> exists i :: 0 <= i < |table| && table[i] == Entry(activity, r.value)
  {
    if table == [] then None
    else if table[0].activity == activity then Some(table[0].shown)
    else
      var r := ShownName(table[1..], activity);
      assert forall i :: 1 <= i < |table| ==> table[i] == table[1..][i - 1];
      r
  }

  /** `Object.entries(table).find(([_, value]) => value === shown)`: the first entry showing that name. */
  function EntryShowing(table: seq<Entry>, shown: string): (r: Option<Entry>)
    ensures r.None? <==> forall i :: 0 <= i < |table| ==> table[i].shown != shown
    ensures r.Some? ==> r.value in table && r.value.shown == shown
  {
    if table == [] then None
    else if table[0].shown == shown then Some(table[0])
    else
      var r := EntryShowing(table[1..], shown);
      assert forall i :: 1 <= i < |table| ==> table[i] == table[1..][i - 1];
      r
  }

  /** `getActivityTranslation`: the table's name for the activity, or the activity itself when it has none (or an empty one). */
  function GetActivityTranslation(activity: string, language: Language): (r: string)
    ensures ShownName(TableOf(language), activity).None? ==> r == activity
    ensures ShownName(TableOf(language), activity).Some? && ShownName(TableOf(language), activity).value != "" ==>
      r == ShownName(TableOf(language), activity).value
  {
    match ShownName(TableOf(language), activity)
    case Some(shown) => if shown != "" then shown else activity
    case None => activity
  }

  /** `getOriginalActivity`: the activity of the first entry showing that name, or the name itself. */
  function GetOriginalActivity(translatedActivity: string, language: Language): (r: string)
    ensures EntryShowing(TableOf(language), translatedActivity).None? ==> r == translatedActivity
    ensures EntryShowing(TableOf(language), translatedActivity).Some? ==>
      exists i :: 0 <= i < |TableOf(language)| && TableOf(language)[i] == Entry(r, translatedActivity)
  {
    match EntryShowing(TableOf(language), translatedActivity)
    case Some(e) => e.activity
    case None => translatedActivity
  }

  ghost predicate DistinctActivities(table: seq<Entry>)
  {
    forall i, j :: 0 <= i < j < |table| ==> table[i].activity != table[j].activity
  }

  ghost predicate DistinctShown(table: seq<Entry>)
  {
    forall i, j :: 0 <= i < j < |table| ==> table[i].shown != table[j].shown
  }

  /** Both tables list each activity once, show each name once, and show no empty name. */
  lemma TablesAreInjective(language: Language)
    ensures DistinctActivities(TableOf(language)) && DistinctShown(TableOf(language))
    ensures forall i :: 0 <= i < |TableOf(language)| ==> TableOf(language)[i].shown != ""
  {
    TablesShareActivities();
    EnglishIsIdentity();
    EnglishDistinct();
    GermanDistinct();
  }

  lemma EnglishDistinct()
    ensures DistinctActivities(EN_ACTIVITIES)
  {
    forall i, j | 0 <= i < j < 8 ensures EN_ACTIVITIES[i].activity != EN_ACTIVITIES[j].activity {
      DifferentNames(EN_ACTIVITIES[i].activity, EN_ACTIVITIES[j].activity);
    }
  }

  lemma GermanDistinct()
    ensures DistinctShown(DE_ACTIVITIES)
    ensures forall i :: 0 <= i < |DE_ACTIVITIES| ==> DE_ACTIVITIES[i].shown != ""
  {
    forall i, j | 0 <= i < j < 8 ensures DE_ACTIVITIES[i].shown != DE_ACTIVITIES[j].shown {
      DifferentNames(DE_ACTIVITIES[i].shown, DE_ACTIVITIES[j].shown);
    }
  }

  /** Two of the names differ in length or in their first, second or last letter. */
  lemma DifferentNames(a: string, b: string)
    requires |a| >= 2 && |b| >= 2 && (|a| != |b| || a[0] != b[0] || a[1] != b[1] || a[|a| - 1] != b[|b| - 1])
    ensures a != b
  {
  }

  /** The English table shows every activity under its own name. */
  lemma EnglishIsIdentity()
    ensures forall i :: 0 <= i < |EN_ACTIVITIES| ==> EN_ACTIVITIES[i].shown == EN_ACTIVITIES[i].activity
  {
  }

  /** Both tables list the same eight activities in the same order. */
  lemma TablesShareActivities()
    ensures |EN_ACTIVITIES| == |DE_ACTIVITIES| == 8
    ensures forall i :: 0 <= i < 8 ==> EN_ACTIVITIES[i].activity == DE_ACTIVITIES[i].activity
  {
  }

  /**
   * In a table listing each activity once and showing each name once,
   * looking up an activity finds its entry and looking up that entry's
   * name finds the same entry.
   */
  lemma {:induction false} LookupsFindEntry(table: seq<Entry>, i: nat)
    requires i < |table| && DistinctActivities(table) && DistinctShown(table)
    ensures ShownName(table, table[i].activity) == Some(table[i].shown)
    ensures EntryShowing(table, table[i].shown) == Some(table[i])
  {
    if i > 0 {
      var t := table[1..];
      assert t[i - 1] == table[i];
      assert DistinctActivities(t) && DistinctShown(t) by {
        forall a, b | 0 <= a < b < |t| ensures t[a].activity != t[b].activity && t[a].shown != t[b].shown {
          assert t[a] == table[a + 1] && t[b] == table[b + 1];
        }
      }
      LookupsFindEntry(t, i - 1);
    }
  }

  /** Translating an activity and looking the result up again gives the activity back, in both languages. */
  lemma TranslationRoundTrip(activity: string, language: Language)
    requires exists i :: 0 <= i < |TableOf(language)| && TableOf(language)[i].activity == activity
    ensures GetOriginalActivity(GetActivityTranslation(activity, language), language) == activity
  {
    var table := TableOf(language);
    var i :| 0 <= i < |table| && table[i].activity == activity;
    TablesAreInjective(language);
    LookupsFindEntry(table, i);
  }

  /** Looking up a shown name and translating the activity found gives the name back. */
  lemma OriginalRoundTrip(shown: string, language: Language)
    requires exists i :: 0 <= i < |TableOf(language)| && TableOf(language)[i].shown == shown
    ensures GetActivityTranslation(GetOriginalActivity(shown, language), language) == shown
  {
    var table := TableOf(language);
    var i :| 0 <= i < |table| && table[i].shown == shown;
    TablesAreInjective(language);
    LookupsFindEntry(table, i);
  }

  /** Both round trips, for every entry of a table. */
  lemma RoundTripsOnTable(language: Language)
    ensures forall i :: 0 <= i < |TableOf(language)| ==>
      GetOriginalActivity(GetActivityTranslation(TableOf(language)[i].activity, language), language) == TableOf(language)[i].activity
    ensures forall i :: 0 <= i < |TableOf(language)| ==>
      GetActivityTranslation(GetOriginalActivity(TableOf(language)[i].shown, language), language) == TableOf(language)[i].shown
  {
    forall i | 0 <= i < |TableOf(language)|
      ensures GetOriginalActivity(GetActivityTranslation(TableOf(language)[i].activity, language), language) == TableOf(language)[i].activity
      ensures GetActivityTranslation(GetOriginalActivity(TableOf(language)[i].shown, language), language) == TableOf(language)[i].shown
    {
      TranslationRoundTrip(TableOf(language)[i].activity, language);
      OriginalRoundTrip(TableOf(language)[i].shown, language);
    }
  }

  /** A name that is neither an activity nor a shown name passes through both lookups unchanged. */
  lemma UnknownPassesThrough(name: string, language: Language)
    requires forall i :: 0 <= i < |TableOf(language)| ==> TableOf(language)[i].activity != name && TableOf(language)[i].shown != name
    ensures GetActivityTranslation(name, language) == name
    ensures GetOriginalActivity(name, language) == name
  {
  }
}
