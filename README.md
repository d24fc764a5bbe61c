# Warehouse activity dashboard: a verified model of its core

The dashboard reads a log of warehouse work, one record per employee,
date, region of the floor plan and activity (walking, driving, handling
goods and so on) with its duration. It shows that log as charts, as a
heatmap of the floor plan and as an animated timeline. This project
models in Dafny the parts of the dashboard that compute something and
proves what they promise:

- **Regions and geometry.** The store of region combinations and the rule
  that validates them (`RegionStore`). The mapping of normalised
  rectangles to pixels and the merging of member regions into one
  bounding box (`RegionCalculations`, `BaseCanvas`, `TextPlacement`,
  `WarehouseUtils`, `TimelineCanvas`). The region picker with its fuzzy
  matching (`RegionManagement`).
- **Heatmaps.** The one-pass fold of the activity heatmap with its
  thresholded counts, totals, maxima and shares (`ActivityHeatmap`). The
  timeline's overlay intensities (`HeatmapOverlay`). The folds they share
  (`Grouping`).
- **Aggregations and filters.** Metadata and per-date metrics
  (`DataProcessing`). The chart folds (`RegionHeatmap`,
  `ActivityDistribution`, `PeakActivityTimes`, `EmployeeActivity`,
  `DashboardOverview`). The dashboard filter (`Dashboard`). Timeline
  playback (`TimelineVisualization`). The date pickers
  (`DateComparisonFilter`, `DateSelection`). The hidden-activity toggle
  (`SettingsSidebar`).
- **Dates and durations.** Weekend-aware grouping of dates, the next
  business day and the duration text (`DateUtils`).
- **Colours.** Hex decoding and re-encoding, HSL palettes, saved palettes
  (`ColorStore`, `Hex`). The preset palettes and their validator
  (`ColorConfig`). Cyclic colour expansion (`ChartColors`). The palette
  editor (`PaletteGenerator`). The settings tab's save rules
  (`ColorSettings`). The icon overlay's text colour and formations
  (`IconsOverlay`).
- **Translation.** Nested message lookup with `{{word}}` interpolation
  (`Translation`). The activity name tables and their round trips
  (`ActivityTranslations`).

`Types`, `Seqs`, `Strs` and `Wrappers` hold the shared records, the
sequence and string operations of JavaScript that the code relies on
(`filter`, de-duplication through a `Set`, `sort`, `split`, `trim`,
`padStart`), and `Option`.

Some choices follow the source's own form:

- A store or a component whose state the source updates becomes a
  `class` whose methods are proved against a function of the old state.
  Examples are `RegionStore.RegionStoreState`, `ColorStore.Store`,
  `RegionManagement.RegionManagementState`, `PaletteGenerator.Generator`
  and `ColorSettings.SettingsTab`.
- A loop becomes a method with invariants that tie it to a recursive
  specification function.
- Pure helpers become functions and lemmas.

How values are represented:

- Coordinates, hours and intensities are exact reals.
- Seconds, counts and colour channels are integers.
- Dates are whole day numbers, and text is `seq<char>`.
- JavaScript's remainder, 32-bit bit operators and `parseInt` prefix
  parsing are written out explicitly.

## Model

| member | source | states |
|---|---|---|
| RegionStore.RegionsOfOthers | stores/useRegionStore.ts:36-40 | the regions collected are exactly those of the combinations not named `oldName` |
| RegionStore.ValidateCombination | stores/useRegionStore.ts:19-43 | as written: a blank name or fewer than two regions is refused; an update keeping its truthy name is accepted at once; otherwise acceptance holds exactly when the name is unused and no region belongs to another combination |
| RegionStore.ValidateCombinationFixed | stores/useRegionStore.ts:19-43 | corrected rule, both directions: a combination is accepted exactly when its name is non-blank, it has two or more regions, no region belongs to a combination other than the one edited, and its name is unused unless an update keeps it |
| RegionStore.FixedAgreesUnlessSameName | stores/useRegionStore.ts:28-29 | the corrected and the written rule give the same answer except for an update that keeps its name |
| RegionStore.Replaced | stores/useRegionStore.ts:77-81 | same length; each entry named `oldName` becomes `{newName, regions}`, every other entry is kept |
| RegionStore.FirstContaining | stores/useRegionStore.ts:86 | the index found is the first combination holding the region; none is found exactly when no combination holds it |
| RegionStore.CombinedRegion | stores/useRegionStore.ts:84-88 | the name of the first combination holding the region, or the region itself when none does |
| RegionStore.CombinedRegionUnique | stores/useRegionStore.ts:84-88 | under the store invariant a region maps to the one combination that holds it |
| RegionStore.Migrate | stores/useRegionStore.ts:95-104 | version 0 state gets an empty list when it has none; any other version is returned unchanged |
| RegionStore.RegionStoreState.constructor | stores/useRegionStore.ts:48 | the store starts with no combinations |
| RegionStore.RegionStoreState.AddCombination | stores/useRegionStore.ts:50-61 | appends `{name, regions}` exactly when validation passes, else leaves the list unchanged |
| RegionStore.RegionStoreState.RemoveCombination | stores/useRegionStore.ts:63-67 | the new list is the old one without the entries of that name, order kept |
| RegionStore.RegionStoreState.UpdateCombination | stores/useRegionStore.ts:69-82 | on a passing validation every entry named `oldName` is replaced; otherwise nothing changes |
| RegionStore.RegionStoreState.GetCombinedRegion | stores/useRegionStore.ts:84-88 | as `CombinedRegion` on the stored list |
| RegionStore.AddPreservesWellFormed | stores/useRegionStore.ts:50-61 | an accepted add keeps names unique and no region in two combinations |
| RegionStore.RemovePreservesWellFormed | stores/useRegionStore.ts:63-67 | removing keeps names unique and no region in two combinations |
| RegionStore.SubsequencePreservesWellFormed | stores/useRegionStore.ts:65 | any filtered sub-list of a well-formed list is well-formed |
| RegionStore.ConsWellFormed | stores/useRegionStore.ts:65 | a combination compatible with each one of a well-formed list can be put in front of it |
| RegionStore.RemoveIdempotent | stores/useRegionStore.ts:63-67 | removing a name twice is removing it once |
| RegionStore.RemoveLeavesNoneNamed | stores/useRegionStore.ts:63-67 | after removal no combination of that name is left |
| RegionStore.UpdateUnknownIsNoOp | stores/useRegionStore.ts:77-81 | an update naming no existing combination leaves the list unchanged |
| RegionStore.UpdateFixedPreservesWellFormed | stores/useRegionStore.ts:69-82 | under the corrected rule every accepted update keeps the invariant, including one that keeps its name |
| RegionStore.UpdateSameNameBreaksWellFormed | stores/useRegionStore.ts:29 | as written, a same-name update on a well-formed list is accepted, the corrected rule refuses it, and the result holds a region twice |
| RegionStore.ExampleNameNotBlank | stores/useRegionStore.ts:26 | the example's name passes the blank-name check |
| RegionStore.ExampleBroken | stores/useRegionStore.ts:77-81 | after the example update both combinations hold `C` |
| RegionStore.ExampleWellFormed | stores/useRegionStore.ts:19-43 | the example list satisfies the store invariant |
| RegionStore.ExampleOverlaps | stores/useRegionStore.ts:36-42 | the example update's regions meet another combination's |
| RegionCalculations.GetRegionsFromMetadata | lib/RegionCalculations.ts:51-58 | the layout regions filtered by "name is listed", in layout order: exactly those regions, never more than the layout holds |
| RegionCalculations.KeepNamed | lib/RegionCalculations.ts:55-57 | the list filtered, in order, by "name is listed": an element is kept exactly when its name is listed |
| RegionCalculations.GetRegionsKeepsOrder | lib/RegionCalculations.ts:51-58 | when every region's name is listed the layout list comes back unchanged, in order |
| RegionCalculations.KeepAllNamed | lib/RegionCalculations.ts:55-57 | a filter that every element passes returns the list itself |
| RegionCalculations.KeepNoneNamed | lib/RegionCalculations.ts:55-57 | a filter that no element passes returns the empty list |
| RegionCalculations.CalculateRegionDimensions | lib/RegionCalculations.ts:60-71 | the top-left corner and the bottom-right corner are the normalised corners scaled by the canvas width and height |
| RegionCalculations.PixelRectPositive | lib/RegionCalculations.ts:65-70 | a rectangle whose bottom-right lies beyond its top-left has positive pixel width and height on a non-empty canvas |
| RegionCalculations.MinOf | lib/RegionCalculations.ts:81-82 | `Math.min(...)` of a non-empty list is one of its elements and below or equal to all of them |
| RegionCalculations.MaxOf | lib/RegionCalculations.ts:83-84 | `Math.max(...)` of a non-empty list is one of its elements and above or equal to all of them |
| RegionCalculations.CalculateCombinedRegionDimensions | lib/RegionCalculations.ts:73-101 | an empty member list is the thrown error; otherwise the bounding box of the members (each member inside it, each side attained), the combination's name, the first member's label, flag and special activities, id -1 and the member names |
| RegionCalculations.CombinedOfOneIsMember | lib/RegionCalculations.ts:81-93 | a combination of a single region has exactly that region's rectangle |
| RegionCalculations.DropNamed | lib/RegionCalculations.ts:128-130 | the list filtered, in order, by "name is not among the combination's regions", keeping exactly those elements |
| RegionCalculations.MaxRegionId | lib/RegionCalculations.ts:132 | the largest region id, bounding every id and attained by one; -1 for no regions |
| RegionCalculations.ApplyCombination | lib/RegionCalculations.ts:120-137 | one pass of the per-combination callback leaves the list `MergeCombination` describes |
| RegionCalculations.UpdateMetadataWithCombinedRegions | lib/RegionCalculations.ts:103-140 | the region list is the combinations folded in order; labels, beacons, dynamic beacons, pixel size, activities, timestamp and version are copied unchanged |
| RegionCalculations.MergeUnmatchedIsNoOp | lib/RegionCalculations.ts:121-122 | a combination with no member in the original layout leaves the list unchanged |
| RegionCalculations.MergeMatchedEffect | lib/RegionCalculations.ts:122-136 | a combination with a member removes every region it names, keeps the others, and appends one merged region with its name and an id above every remaining id |
| RegionCalculations.FindNamed | lib/RegionCalculations.ts:147 | the first combination of that name; none exactly when no combination has it |
| RegionCalculations.GetOriginalRegions | lib/RegionCalculations.ts:142-149 | the regions of the first combination of that name, or the empty list when there is none |
| RegionCalculations.IsCombinedRegion | lib/RegionCalculations.ts:151-156 | true exactly when some combination has the region's name |
| RegionCalculations.GetCombinationByRegionName | lib/RegionCalculations.ts:158-165 | the first combination named so or containing that region; none exactly when no combination does either |
| RegionCalculations.CombinedRegionLookups | lib/RegionCalculations.ts:142-165 | for a combined region the by-name lookup succeeds and its members are the first same-named combination's regions |
| BaseCanvas.CalculateRegionDimensions | components/BaseWarehouseCanvas.tsx:33-44 | the same pixel rectangle as the standard formula |
| BaseCanvas.SameFormulaAsLibrary | components/BaseWarehouseCanvas.tsx:33-44 | the canvas helper and the geometry library give the same rectangle for every region |
| BaseCanvas.CalculateTextLayout | components/BaseWarehouseCanvas.tsx:46-51 | for a positive height: vertical exactly when the ratio is below 0.8, horizontal exactly when above 1.2; a zero height follows JavaScript's infinite or NaN ratio |
| BaseCanvas.RatioCompare | components/BaseWarehouseCanvas.tsx:47-49 | for a positive height, comparing the ratio with a constant is comparing the width with that multiple of the height |
| BaseCanvas.ThresholdsAreSquare | components/BaseWarehouseCanvas.tsx:48-50 | ratios of exactly 0.8 and 1.2 are square |
| BaseCanvas.RenderRegionText | components/BaseWarehouseCanvas.tsx:53-98 | font size at most 0.8 of the longer side, and equal to it over 8 (long text) or 5 when that side is non-negative; outline one eighth of the font; vertical text drawn at the origin after translating to the centre, other text at the centre |
| BaseCanvas.InitialCanvasSize | components/BaseWarehouseCanvas.tsx:121-124 | the layout's pixel size, with 800 and 600 for a zero width or height |
| BaseCanvas.ResizedCanvas | components/BaseWarehouseCanvas.tsx:259-268 | the new width is the container's and the height keeps the layout's aspect ratio |
| BaseCanvas.ResizeToSameSizeKeepsPrevious | components/BaseWarehouseCanvas.tsx:267 | a resize to the size already shown returns the previous value |
| BaseCanvas.CanvasView.constructor | components/BaseWarehouseCanvas.tsx:121-124 | the canvas starts at the initial size |
| BaseCanvas.CanvasView.HandleResize | components/BaseWarehouseCanvas.tsx:255-269 | with no container nothing changes; otherwise the size follows the container width |
| BaseCanvas.CanvasPoint | components/BaseWarehouseCanvas.tsx:299-301 | the mouse offset is scaled by the canvas size over the on-screen size on each axis |
| BaseCanvas.HitsUpTo | components/BaseWarehouseCanvas.tsx:304-314 | exactly the indices of the regions whose closed rectangle holds the point, ascending |
| BaseCanvas.NamesAt | components/BaseWarehouseCanvas.tsx:329-339 | one name per hit index, the name of that region |
| BaseCanvas.HandleMouseMove | components/BaseWarehouseCanvas.tsx:293-317 | nothing is reported when hover is off or has no listener; otherwise the last containing region in list order, or null exactly when none contains the point |
| BaseCanvas.HandleClick | components/BaseWarehouseCanvas.tsx:319-340 | nothing fires when click is off or has no listener; otherwise one call per containing region, in list order |
| BaseCanvas.HoverIsLastClickHit | components/BaseWarehouseCanvas.tsx:293-340 | the hovered region is the last of the regions a click fires for |
| TextPlacement.CalculateTextLayout | components/shared/TextPlacement.tsx:14-24 | the same orientation as the warehouse canvas rule, for every box |
| TextPlacement.DrawText | components/shared/TextPlacement.tsx:26-72 | font a fifth of the shorter side but at most 14 (and equal to one of the three), outline a sixth of the font, vertical text drawn at the origin after translating to `(x, y)`, other text at `(x, y)` |
| TextPlacement.MeasureText | components/shared/TextPlacement.tsx:74-88 | the measured width and the font size as height |
| TextPlacement.MeasuredHeightOfDrawnText | components/shared/TextPlacement.tsx:74-88 | a label drawn in a box measures at most 14 high |
| WarehouseUtils.CalculateRegionDimensions | components/visualizations/warehouse/utils.ts:10-17 | the standard pixel rectangle |
| WarehouseUtils.RenderRegionText | components/visualizations/warehouse/utils.ts:19-30 | font a fifth of the shorter side, black fill centred both ways, drawn at the rectangle's centre |
| TimelineCanvas.LabelColor | components/timeline/WarehouseCanvas.tsx:49 | the colour of the first label with that id; none exactly when no label has it |
| TimelineCanvas.RegionDataMeaning | components/timeline/WarehouseCanvas.tsx:39-59 | the region's rectangle is the shared canvas formula, its name is kept, and its colour is the first matching label's non-empty colour or `#ccc` |
| TimelineCanvas.RegionMapKeys | components/timeline/WarehouseCanvas.tsx:74-77 | after the refill the map's keys are exactly the layout's region names |
| TimelineCanvas.RegionMapLastWins | components/timeline/WarehouseCanvas.tsx:75-77 | a name is mapped to the data of the last region carrying it |
| TimelineCanvas.EmployeeColor | components/timeline/WarehouseCanvas.tsx:104 | the colour table's entry for the part after the first `-`, or `#ccc` when there is no such part or no entry |
| TimelineCanvas.EmployeeColorsSet | types/constants.ts:17-28 | every entry of the employee colour table is a non-empty colour |
| TimelineCanvas.EmployeeColorExamples | types/constants.ts:17-28 | `E-A` gets employee A's red; an id without a dash gets `#ccc` |
| TimelineCanvas.Marks | components/timeline/WarehouseCanvas.tsx:102-105 | one employee mark per activity, in order, with that id's colour |
| TimelineCanvas.RenderAll | components/timeline/WarehouseCanvas.tsx:75-109 | one draw decision per region |
| TimelineCanvas.RenderAllPerRegion | components/timeline/WarehouseCanvas.tsx:75-109 | decision `k` is region `k`'s own |
| TimelineCanvas.TimelineCanvasView.constructor | components/timeline/WarehouseCanvas.tsx:36 | the region map starts empty |
| TimelineCanvas.TimelineCanvasView.HandleRender | components/timeline/WarehouseCanvas.tsx:61-110 | the map is cleared and refilled from the layout, and the draw decisions are those of every region in layout order |
| TimelineCanvas.TimelineCanvasView.Refill | components/timeline/WarehouseCanvas.tsx:74-109 | after the loop the map and the decisions are those of the whole region list |
| TimelineCanvas.RegionDrawMeaning | components/timeline/WarehouseCanvas.tsx:79-107 | the draw carries the region's name; active exactly when some activity names the region; hovered exactly when a hover listener exists; an active region has one indicator at its centre whose k-th mark is the id and colour of the k-th activity in that region |
| RegionManagement.FindMatches | components/RegionManagement.tsx:44-81 | the two passes produce exactly the specification list of matches |
| RegionManagement.ExactUpToMembers | components/RegionManagement.tsx:49-62 | the first pass yields exactly the other regions sharing the clicked region's base pattern, each with score 0 |
| RegionManagement.RelatedUpToMembers | components/RegionManagement.tsx:64-78 | the second pass yields exactly the other regions sharing its first segment, each with score 0.5 |
| RegionManagement.MatchesMeaning | components/RegionManagement.tsx:44-81 | the clicked region is never matched; the related pass contributes only when no region shares the base pattern |
| RegionManagement.NoExactMatches | components/RegionManagement.tsx:64 | when no region shares the base pattern the first pass is empty |
| Seqs.WithoutDistinct | components/RegionManagement.tsx:94 | deleting keeps the selection duplicate-free and shrinks it by exactly one when the region was in it |
| RegionManagement.AfterRemove | components/RegionManagement.tsx:104-111 | the selection after a removal never holds exactly one region |
| RegionManagement.ToggleMeaning | components/RegionManagement.tsx:92-100 | toggling adds an unselected region at the end, drops a selected one, and clears a selection that would be left with one region |
| RegionManagement.ToggleTwice | components/RegionManagement.tsx:92-100 | toggling the same region twice restores a selection that was not exactly one region |
| Seqs.WithoutOfAppended | components/RegionManagement.tsx:94-99 | deleting a region just added restores the selection |
| RegionManagement.FindCombination | components/RegionManagement.tsx:114 | the first combination with that name, none exactly when there is none |
| RegionManagement.AvailableRegions | components/RegionManagement.tsx:146-157 | the panel's regions that are not excluded and not held by a combination other than the one being edited |
| RegionManagement.RegionManagementState.constructor | components/RegionManagement.tsx:30-34 | nothing selected, empty name, no matches, nothing active or being edited |
| RegionManagement.RegionManagementState.HandleRegionClick | components/RegionManagement.tsx:83-102 | clicking the active region deactivates it; another becomes active with its matches; the selection is toggled |
| RegionManagement.RegionManagementState.RemoveSelectedRegion | components/RegionManagement.tsx:104-111 | the selection loses the region and is cleared when one would be left |
| RegionManagement.RegionManagementState.HandleEditCombination | components/RegionManagement.tsx:113-120 | a known combination loads its name and regions for editing; an unknown name changes nothing |
| RegionManagement.RegionManagementState.HandleCombine | components/RegionManagement.tsx:122-134 | with a name and two or more regions the combination is updated or added and the form is reset; otherwise nothing changes |
| HeatmapOverlay.MaxOfSums | components/visualizations/warehouse/HeatmapOverlay.tsx:37 | the largest of the sums, attained by one of them; none exactly when there are no sums |
| HeatmapOverlay.CalculateHeatmapData | components/visualizations/warehouse/HeatmapOverlay.tsx:23-45 | the summing pass and the maximum produce exactly the specification entries |
| HeatmapOverlay.HeatmapDataMeaning | components/visualizations/warehouse/HeatmapOverlay.tsx:40-44 | one entry per region, in order, with its summed duration and that sum over the largest sum (0 when the largest is 0 or missing) |
| HeatmapOverlay.MaxSeenMeaning | components/visualizations/warehouse/HeatmapOverlay.tsx:28-37 | the maximum ranges over every region an activity names and is attained by one of them; missing exactly without activities |
| HeatmapOverlay.IntensityInRange | components/visualizations/warehouse/HeatmapOverlay.tsx:43 | with non-negative durations every intensity lies between 0 and 1 |
| HeatmapOverlay.NormalizeInRange | components/visualizations/warehouse/HeatmapOverlay.tsx:43 | a sum no larger than a positive maximum normalises into [0, 1] |
| HeatmapOverlay.FindRegion | components/visualizations/warehouse/HeatmapOverlay.tsx:58 | the first region with that name, none exactly when there is none |
| HeatmapOverlay.DrawHeatmap | components/visualizations/warehouse/HeatmapOverlay.tsx:47-84 | the loop draws exactly the specification patches, skipping entries whose region is not found |
| HeatmapOverlay.NoEntrySkipped | components/visualizations/warehouse/HeatmapOverlay.tsx:57-59 | entries computed from the same region list are never skipped |
| HeatmapOverlay.RenderHeatmap | components/visualizations/warehouse/HeatmapOverlay.tsx:118-124 | nothing is drawn while disabled; otherwise one patch per region from the computed data |
| ActivityHeatmap.GetHeatmapColor | components/visualizations/ActivityHeatmap.tsx:41-53 | the low band exactly up to 0.3, the high band exactly above 0.7, the middle band otherwise |
| ActivityHeatmap.HeatmapColorMonotone | components/visualizations/ActivityHeatmap.tsx:48-53 | a higher intensity never gets a more transparent colour |
| ActivityHeatmap.ProcessCombinedRegions | components/visualizations/ActivityHeatmap.tsx:55-67 | one record per record, in order, each re-labelled with its first containing combination's name |
| ActivityHeatmap.ProcessCombinedRegionsMeaning | components/visualizations/ActivityHeatmap.tsx:59-66 | every field but the region is kept; a record in no combination is unchanged; under the store invariant a combined record carries the one combination holding its region |
| ActivityHeatmap.ProcessedData | components/visualizations/ActivityHeatmap.tsx:131-134 | records of excluded regions are dropped by raw name before combining; nothing else is dropped |
| ActivityHeatmap.HeatFoldStep | components/visualizations/ActivityHeatmap.tsx:143-173 | the fold over one more record is one more step of the loop body |
| ActivityHeatmap.CalculateHeatData | components/visualizations/ActivityHeatmap.tsx:136-176 | the loop computes exactly the specification fold |
| ActivityHeatmap.AddRecord | components/visualizations/ActivityHeatmap.tsx:144-172 | one record updates the region entry, totals and maxima as the fold's step does |
| ActivityHeatmap.SeenStep | components/visualizations/ActivityHeatmap.tsx:144-170 | a region has an entry after one more record exactly when it had one or that record is of the activity in it |
| ActivityHeatmap.HeatFoldKeys | components/visualizations/ActivityHeatmap.tsx:143-170 | the map holds exactly the regions with a record of the activity, keyed by their own name, listed once in first-seen order |
| ActivityHeatmap.HeatFoldTotals | components/visualizations/ActivityHeatmap.tsx:144-149 | the totals are the activity's summed duration and its number of counted records (only those over 5 s when instances are shown) |
| ActivityHeatmap.HeatFoldRegions | components/visualizations/ActivityHeatmap.tsx:151-163 | each region entry holds the region's summed duration and number of counted records |
| ActivityHeatmap.RegionTotalsUnseen | components/visualizations/ActivityHeatmap.tsx:144 | a region without records of the activity has zero duration and count |
| ActivityHeatmap.HeatFoldMaxima | components/visualizations/ActivityHeatmap.tsx:171-172 | the maxima bound every region's figures, are never negative, and the count maximum is some region's |
| ActivityHeatmap.DistinctAppend | components/visualizations/ActivityHeatmap.tsx:170 | adding a new region keeps the region list duplicate-free |
| ActivityHeatmap.MaxDurationAttained | components/visualizations/ActivityHeatmap.tsx:171 | with non-negative durations the duration maximum is some region's, or 0 |
| ActivityHeatmap.FinalizeHeatData | components/visualizations/ActivityHeatmap.tsx:165-168 | the same regions, totals and maxima, with every percentage recomputed against the final total |
| ActivityHeatmap.LastRecordShareIsFinal | components/visualizations/ActivityHeatmap.tsx:165-168 | the running share equals the final one for the region of the last record |
| ActivityHeatmap.RunningShareCounterexample | components/visualizations/ActivityHeatmap.tsx:165-168 | with durations A 10, A 20, B 30 the code reports 100% for A and 50% for B, while the final shares are 50% each |
| ActivityHeatmap.SumMetricUpdate | components/visualizations/ActivityHeatmap.tsx:170 | replacing one region's entry changes the sum of figures by exactly the difference |
| ActivityHeatmap.SumMetricAppend | components/visualizations/ActivityHeatmap.tsx:170 | adding a region adds its figure to the sum |
| ActivityHeatmap.SumsStep | components/visualizations/ActivityHeatmap.tsx:146-170 | each step keeps the regions' figures summing to the totals |
| ActivityHeatmap.HeatFoldSums | components/visualizations/ActivityHeatmap.tsx:146-172 | the regions' durations add up to the total duration and their counts to the total count |
| ActivityHeatmap.SharesSum | components/visualizations/ActivityHeatmap.tsx:165-168 | the recomputed percentages of a list of regions add up to their share of the total |
| ActivityHeatmap.SharesAdd | components/visualizations/ActivityHeatmap.tsx:166-168 | two shares of the same total add up to the share of their sum |
| ActivityHeatmap.WholeShare | components/visualizations/ActivityHeatmap.tsx:166-168 | the whole total is a share of 100 |
| ActivityHeatmap.SharesSumTo100 | components/visualizations/ActivityHeatmap.tsx:165-168 | once recomputed against a non-zero total the percentages add up to 100 |
| ActivityHeatmap.FinalSharesSumTo100 | components/visualizations/ActivityHeatmap.tsx:165-168 | for the fold's statistics the final shares add up to 100 whenever the total is not 0 |
| ActivityHeatmap.RenderHeatmap | components/visualizations/ActivityHeatmap.tsx:178-218 | one shaded cell per layout region that has statistics, labelled and given a tooltip exactly when its duration is positive |
| ActivityHeatmap.IntensityInRange | components/visualizations/ActivityHeatmap.tsx:189-191 | with non-negative durations every intensity lies between 0 and 1 |
| ActivityHeatmap.DivAtMostOne | components/visualizations/ActivityHeatmap.tsx:189-191 | a non-negative figure over a maximum no smaller lies in [0, 1] |
| ActivityHeatmap.RegionDurationNonNegative | components/visualizations/ActivityHeatmap.tsx:160 | with non-negative durations a region's summed duration is non-negative |
| ActivityHeatmap.TooltipsMeaning | components/visualizations/ActivityHeatmap.tsx:185-213 | a region gets a tooltip exactly when it is in the layout, has statistics and a positive duration, and the tooltip holds those statistics |
| RegionHeatmap.SummaryOf | components/visualizations/RegionHeatmap.tsx:12-21 | the summary holds exactly the regions of visible records, each once, with its summed duration |
| RegionHeatmap.RegionData | components/visualizations/RegionHeatmap.tsx:11-30 | the summing loop and the sort produce exactly the specification entries |
| RegionHeatmap.SeenVisible | components/visualizations/RegionHeatmap.tsx:15-20 | a region is in the summary exactly when some record of a visible activity names it |
| RegionHeatmap.SameEntries | components/visualizations/RegionHeatmap.tsx:23-29 | sorting only reorders the summary's entries |
| RegionHeatmap.RegionDataMeaning | components/visualizations/RegionHeatmap.tsx:23-29 | every entry is a visible region with hours its seconds over 3600 and intensity its share of eight hours capped at 1; entries run busiest first |
| RegionHeatmap.EveryVisibleRegionListed | components/visualizations/RegionHeatmap.tsx:14-23 | every region a visible record names has an entry |
| RegionHeatmap.RegionsListedOnce | components/visualizations/RegionHeatmap.tsx:17-23 | no two entries share a region |
| RegionHeatmap.IntensityInRange | components/visualizations/RegionHeatmap.tsx:27 | with non-negative durations every intensity lies between 0 and 1 |
| RegionHeatmap.EntryIntensityInRange | components/visualizations/RegionHeatmap.tsx:27 | a non-negative duration gives an intensity in [0, 1] |
| RegionHeatmap.VisibleNonNegative | components/visualizations/RegionHeatmap.tsx:15 | dropping hidden records keeps durations non-negative |
| RegionHeatmap.HiddenNeverContributes | components/visualizations/RegionHeatmap.tsx:15 | a record of a hidden activity changes nothing |
| ActivityDistribution.SummaryOf | components/visualizations/ActivityDistribution.tsx:13-22 | the summary holds exactly the activities of visible records, each once, with their summed seconds |
| ActivityDistribution.ActivityData | components/visualizations/ActivityDistribution.tsx:12-30 | the summing loop and the sort produce exactly the specification entries |
| ActivityDistribution.SameEntries | components/visualizations/ActivityDistribution.tsx:24-29 | sorting only reorders the summary's entries |
| ActivityDistribution.EntryOfSummary | components/visualizations/ActivityDistribution.tsx:24-28 | an entry's activity is a key of the summary and its hours are that key's seconds over 3600 |
| ActivityDistribution.ActivityDataMeaning | components/visualizations/ActivityDistribution.tsx:15-29 | every entry is a non-hidden activity carried by some record |
| ActivityDistribution.ActivityHours | components/visualizations/ActivityDistribution.tsx:20 | an entry's hours are the sum of its records' hours over all records |
| ActivityDistribution.VisibleSum | components/visualizations/ActivityDistribution.tsx:16 | for a non-hidden activity, summing the visible records is summing all of them |
| ActivityDistribution.EveryVisibleActivityListed | components/visualizations/ActivityDistribution.tsx:15-24 | every non-hidden activity of some record has an entry |
| ActivityDistribution.ActivitiesListedOnce | components/visualizations/ActivityDistribution.tsx:17-24 | no two entries share an activity |
| PeakActivityTimes.InitialBuckets | components/visualizations/PeakActivityTimes.tsx:13-17 | 24 zeroed buckets, one per hour |
| PeakActivityTimes.BucketsOf | components/visualizations/PeakActivityTimes.tsx:13-30 | there are always exactly 24 buckets |
| PeakActivityTimes.HourlyData | components/visualizations/PeakActivityTimes.tsx:12-37 | the in-place loop fails exactly when a visible record starts at a negative time (no bucket for its hour), and otherwise yields the labelled specification buckets |
| PeakActivityTimes.BucketsArePerHour | components/visualizations/PeakActivityTimes.tsx:19-30 | bucket h is filled from exactly the visible records starting in hour h of the day |
| PeakActivityTimes.BucketsStep | components/visualizations/PeakActivityTimes.tsx:19-30 | one more record changes only the bucket of its start hour, and only when it is visible |
| PeakActivityTimes.BucketActivities | components/visualizations/PeakActivityTimes.tsx:25-29 | a bucket's total is its records' hours, its activities are exactly its records' activities, each with its own hours |
| PeakActivityTimes.UnseenActivityHasNoHours | components/visualizations/PeakActivityTimes.tsx:26-29 | an activity with no record in the bucket has no hours |
| PeakActivityTimes.TotalIsSumOfSubtotals | components/visualizations/PeakActivityTimes.tsx:25-29 | a bucket's total is the sum of its per-activity subtotals |
| PeakActivityTimes.HourlyDataMeaning | components/visualizations/PeakActivityTimes.tsx:12-37 | 24 points labelled by hour; point h holds the hours of the visible records starting in hour h, in total and per activity, the total being the sum of the subtotals |
| PeakActivityTimes.HourLabelShape | components/visualizations/PeakActivityTimes.tsx:34 | every label is the hour padded to two digits then `:00` |
| EmployeeActivity.ProcessData | components/visualizations/EmployeeActivity.tsx:41-94 | the two passes and the row building produce exactly the specification rows and activity list |
| EmployeeActivity.SumRealSnoc | components/visualizations/EmployeeActivity.tsx:56 | one more record adds its hours to a sum of hours |
| EmployeeActivity.FilterSnoc | components/visualizations/EmployeeActivity.tsx:47-48 | the records one more record's list selects are the earlier ones, then that record if it qualifies |
| EmployeeActivity.AddSelectedCell | components/visualizations/EmployeeActivity.tsx:50-56 | a selected record adds its hours to its own employee and activity cell, started at 0; every other cell stays |
| EmployeeActivity.SelectedExpectedStep | components/visualizations/EmployeeActivity.tsx:46-58 | the expected cell moves with one more record exactly as the pass moves the real one |
| EmployeeActivity.SelectedSkipStep | components/visualizations/EmployeeActivity.tsx:47-48 | a record that is hidden, off the selected dates or of another pair leaves the expected cell alone |
| EmployeeActivity.SelectedCell | components/visualizations/EmployeeActivity.tsx:46-58 | after the selected pass a cell exists exactly for the pairs with selected records, holding their hours and no comparison |
| EmployeeActivity.ListedStep | components/visualizations/EmployeeActivity.tsx:50-52 | registering an employee appends a new one once and keeps the employee list repeat-free |
| EmployeeActivity.HasEmployeeStep | components/visualizations/EmployeeActivity.tsx:47-52 | a record of the employee on the dates makes the employee seen; other records change nothing |
| EmployeeActivity.SelectedEmployees | components/visualizations/EmployeeActivity.tsx:46-58 | the selected pass lists exactly the employees with selected records, once each |
| EmployeeActivity.SelectedActivities | components/visualizations/EmployeeActivity.tsx:57 | the activity list is the distinct activities of the selected period in first-seen order |
| EmployeeActivity.ColumnSnoc | components/visualizations/EmployeeActivity.tsx:57 | adding a record adds its activity to the set once |
| EmployeeActivity.SelectedHasNoComparison | components/visualizations/EmployeeActivity.tsx:54 | no cell holds comparison hours after the selected pass |
| EmployeeActivity.AddComparisonCell | components/visualizations/EmployeeActivity.tsx:66-75 | a comparison record restarts a missing or zero comparison at 0 and adds its hours; every other cell stays |
| EmployeeActivity.ComparisonExpectedStep | components/visualizations/EmployeeActivity.tsx:62-76 | the expected cell moves with one more record exactly as the comparison pass moves the real one |
| EmployeeActivity.ComparisonExpectedHit | components/visualizations/EmployeeActivity.tsx:69-75 | a record of the cell's own pair sets the expected comparison value to the earlier one (restarted at 0 when missing or zero) plus its hours, keeping the selected hours |
| EmployeeActivity.PairSnoc | components/visualizations/EmployeeActivity.tsx:62-75 | a record of the pair makes the pair present and adds its hours to the pair's total |
| EmployeeActivity.BumpCell | components/visualizations/EmployeeActivity.tsx:69-75 | restarting a missing or zero comparison at 0 and adding the hours gives the pair's earlier comparison total plus the hours, the selected hours kept |
| EmployeeActivity.ComparisonSkipStep | components/visualizations/EmployeeActivity.tsx:63-64 | a record that is hidden, off the comparison dates or of another pair leaves the expected cell alone |
| EmployeeActivity.ComparisonCell | components/visualizations/EmployeeActivity.tsx:61-77 | the comparison pass gives every pair with comparison records its comparison hours, keeps the selected hours, leaves other cells alone |
| EmployeeActivity.ComparisonEmployees | components/visualizations/EmployeeActivity.tsx:61-77 | the comparison pass keeps the employee list, adds the employees first seen there and keeps the activity list |
| EmployeeActivity.SummaryCell | components/visualizations/EmployeeActivity.tsx:41-77 | a cell exists exactly for pairs with selected records or, with comparison on, comparison records; it holds the selected hours and comparison hours only with comparison on |
| EmployeeActivity.SummaryEmployees | components/visualizations/EmployeeActivity.tsx:41-93 | each employee once, exactly those with selected or (comparison on) comparison records; the activities are those of the selected period alone |
| EmployeeActivity.RowFields | components/visualizations/EmployeeActivity.tsx:79-88 | a row has a selected field for each of its employee's activities and a comparison field only with comparison on and comparison records |
| EmployeeActivity.FieldNamesDistinct | components/visualizations/EmployeeActivity.tsx:82-84 | selected and comparison field names never clash, and each names one activity |
| Seqs.ToggleMember | components/visualizations/EmployeeActivity.tsx:96-106 | `toggleActivity` of the legend: the activity flips between inactive and active; no other activity changes |
| EmployeeActivity.LegendItems | components/visualizations/EmployeeActivity.tsx:108-120 | one legend item per activity |
| EmployeeActivity.LegendColors | components/visualizations/EmployeeActivity.tsx:108-120 | item i is labelled by activity i, inactive exactly when the activity is, takes colours cyclically, has a comparison colour exactly with comparison on, and that colour is its colour followed by `88` (`undefined88` with no colours) |
| EmployeeActivity.ModuloShift | components/visualizations/EmployeeActivity.tsx:111 | an index one palette length further picks the same colour |
| DashboardOverview.CalculatePeriodStats | components/DashboardOverview.tsx:92-129 | the filter and the three folds produce exactly the specification statistics of the period |
| DashboardOverview.SumHours | components/DashboardOverview.tsx:94 | the total is the sum of the period's record hours |
| DashboardOverview.CollectShifts | components/DashboardOverview.tsx:97-105 | the loop builds exactly the specification shift table |
| DashboardOverview.AverageShift | components/DashboardOverview.tsx:107-108 | the loop computes the specification average over the shift table |
| DashboardOverview.CollectRegions | components/DashboardOverview.tsx:111-117 | the loop builds exactly the specification region table |
| DashboardOverview.MostOccupied | components/DashboardOverview.tsx:119-122 | the loop finds exactly the specification busiest region |
| DashboardOverview.ShiftKeys | components/DashboardOverview.tsx:97-105 | one shift per date and employee of the records, listed once each |
| DashboardOverview.ShiftHoursAddUp | components/DashboardOverview.tsx:97-108 | the shifts' hours add up to the records' hours |
| DashboardOverview.AddShiftHours | components/DashboardOverview.tsx:98-103 | a record raises its own shift's hours by its hours and no other shift's |
| DashboardOverview.NotInOrderHasNoHours | components/DashboardOverview.tsx:99-100 | a shift not yet seen has no hours |
| DashboardOverview.RegionStatsMeaning | components/DashboardOverview.tsx:111-117 | one entry per region of the records, listed once each, holding that region's hours |
| DashboardOverview.UnseenNoHours | components/DashboardOverview.tsx:112-115 | a key no record carries has no hours |
| DashboardOverview.MaxRegionMeaning | components/DashboardOverview.tsx:119-122 | the result bounds every region's hours; it is the empty name with 0 when no region has positive hours, and otherwise the first region with the most hours |
| DashboardOverview.TotalHoursIsSeconds | components/DashboardOverview.tsx:94 | summing record hours one by one is converting the summed seconds |
| DashboardOverview.PeriodTotal | components/DashboardOverview.tsx:93-94 | the period total is the summed seconds of the records on the dates, over 3600 |
| DashboardOverview.ShiftCount | components/DashboardOverview.tsx:97-108 | the shifts are the distinct date and employee pairs of the period; none exactly when the period is empty |
| DashboardOverview.AverageShiftMeaning | components/DashboardOverview.tsx:107-108 | the average is undefined without records and otherwise the period's hours over its number of shifts |
| DashboardOverview.BusiestRegion | components/DashboardOverview.tsx:111-122 | the busiest region bounds every region of the period; the empty name when none has positive hours, otherwise the first region with the most hours |
| DashboardOverview.Change | components/DashboardOverview.tsx:138-141 | the percentage change of a over b; none exactly when b is 0 |
| DashboardOverview.Stats | components/DashboardOverview.tsx:90-151 | the selected statistics always, the comparison statistics and trends exactly when comparison is on, and the employee count of the metadata |
| DashboardOverview.RegionTrendOnlyForSameRegion | components/DashboardOverview.tsx:137-143 | the region trend exists exactly when both periods share the busiest region; the hours trend exactly when the comparison total is not 0 |
| Dashboard.FilteredData | components/Dashboard.tsx:24-53 | nothing exactly without data; otherwise the same metadata and a subset of the records |
| Dashboard.KeptRecords | components/Dashboard.tsx:29-51 | a record is kept exactly when its date lies in the set range (inclusive), its employee is selected when any is, and its region is selected when any is |
| Dashboard.FiltersCompose | components/Dashboard.tsx:29-51 | the three tests together are the date, employee and region filters applied one after another |
| Dashboard.NoFilterKeepsAll | components/Dashboard.tsx:16-21 | with no range and no selection, as in the initial settings, every record is kept |
| Dashboard.HiddenIgnored | components/Dashboard.tsx:24-53 | hidden activities play no part in which records are kept |
| SettingsSidebar.ToggleActivity | components/SettingsSidebar.tsx:19-30 | the activity flips between hidden and visible, no other activity changes, and every other setting is carried over |
| SettingsSidebar.ToggleTwiceRestores | components/SettingsSidebar.tsx:19-30 | flipping the same switch twice restores the settings |
| TimelineVisualization.MinStart | components/visualizations/TimelineVisualization.tsx:31-35 | the earliest start time of the activities, attained by one of them |
| TimelineVisualization.MaxEnd | components/visualizations/TimelineVisualization.tsx:32-36 | the latest end time of the activities, attained by one of them |
| TimelineVisualization.TimeRangeCovers | components/visualizations/TimelineVisualization.tsx:23-38 | the window lies within the day and holds every activity of the day, with five minutes to spare where the day allows |
| TimelineVisualization.CurrentMeaning | components/visualizations/TimelineVisualization.tsx:55-70 | a record is current exactly when it is on the selected date, spans the current time inclusively, is not hidden and belongs to the selected employee unless none or `all` is selected; current records are among the day's records |
| TimelineVisualization.UpdateTime | components/visualizations/TimelineVisualization.tsx:72-80 | only the current time changes |
| TimelineVisualization.UpdateTimeStaysInWindow | components/visualizations/TimelineVisualization.tsx:72-80 | with a non-negative speed a clock inside the window stays inside it, moving forward by speed over 60 or wrapping to the start |
| TimelineVisualization.FrameThrottle.constructor | components/visualizations/TimelineVisualization.tsx:84 | no reference timestamp yet |
| TimelineVisualization.FrameThrottle.Animate | components/visualizations/TimelineVisualization.tsx:86-96 | the first timestamp becomes the reference; the clock steps, and the reference moves, once a frame interval has passed |
| TimelineVisualization.StepsAreSpaced | components/visualizations/TimelineVisualization.tsx:86-96 | with positive timestamps the steps are at least one frame interval apart, and after the reference |
| TimelineVisualization.UniqueEmployeesMeaning | components/visualizations/TimelineVisualization.tsx:109-112 | the employee list is sorted, repeat-free and holds exactly the records' ids |
| DateComparisonFilter.HandleDateToggle | components/filters/DateComparisonFilter.tsx:90-100 | in comparison mode with two or more dates an unselected date is refused; otherwise a selected date is removed and an unselected one appended |
| Seqs.Without | components/filters/DateComparisonFilter.tsx:96 | equals the filter "is not the date": every other element, in order; shorter exactly when the element was there |
| Seqs.WithoutAbsent | components/filters/DateComparisonFilter.tsx:96 | a selection without the date is left as it is |
| DateComparisonFilter.ComparisonSelectionCapped | components/filters/DateComparisonFilter.tsx:91-97 | in comparison mode a selection of at most two dates stays at most two |
| DateComparisonFilter.ToggleTwiceRestores | components/filters/DateComparisonFilter.tsx:90-100 | adding an unselected date and clicking it again restores the selection |
| DateComparisonFilter.GroupsMeaning | components/filters/DateComparisonFilter.tsx:63-88 | a week label is present exactly when some offered date carries it, its group lists those dates' entries in list order, and each label is listed once |
| DateComparisonFilter.EntriesMeaning | components/filters/DateComparisonFilter.tsx:66-85 | every entry is an offered date (with metrics, a positive duration and a valid parse) carrying its metrics and label, flagged incomplete exactly when fewer employees than expected were present |
| DateComparisonFilter.OfferedDatesListed | components/filters/DateComparisonFilter.tsx:66-85 | every offered date appears in the group of its label |
| DateComparisonFilter.GroupedDates | components/filters/DateComparisonFilter.tsx:63-88 | the appending loop builds exactly the specification groups |
| DateSelection.MissingEmployeesText | components/filters/DateSelection.tsx:42-48 | no text exactly when the date has no metrics or nobody is missing |
| DateSelection.MissingTextNamesEmployees | components/filters/DateSelection.tsx:46 | the text names exactly the missing employees, in order, joined by a comma and a space |
| DateSelection.RowDates | components/filters/DateSelection.tsx:53-101 | the dates of the rows, one per row and in order |
| DateSelection.RowsAreShownDates | components/filters/DateSelection.tsx:53-55 | the rows follow the date list, keeping exactly the dates with metrics and a non-zero duration |
| DateSelection.RowsMeaning | components/filters/DateSelection.tsx:53-101 | every row is a shown date; it warns exactly when the date is incomplete, with the comma-joined missing employees of `getMissingEmployeesText` when listed and the missing count otherwise; its switches show membership of the two date sets, the comparison switch only with comparison on |
| DateSelection.FlipSwitch | components/filters/DateSelection.tsx:86-96 | the primary switch toggles the date in the selected period, the comparison switch, when drawn, in the comparison period |
| DateSelection.NoComparisonToggleWhenDisabled | components/filters/DateSelection.tsx:91-96 | with comparison off no switch toggles the comparison period |
| DateUtils.Weekday | lib/utils.ts:9-12 | a weekday number from 0 (Sunday) to 6 (Saturday) |
| DateUtils.WeekdayNext | lib/utils.ts:16-18 | the next day's weekday follows on, Saturday wrapping to Sunday |
| DateUtils.NoThreeWeekendDays | lib/utils.ts:17-19 | of three consecutive days at least one is a working day, so the loop ends |
| DateUtils.GetNextBusinessDay | lib/utils.ts:14-21 | the first working day after the date, at most three days later, with only weekend days between |
| DateUtils.GroupsOf | lib/utils.ts:33-50 | a non-empty date list has at least one group |
| DateUtils.GroupContinuousDates | lib/utils.ts:28-51 | no groups for no dates, one single-day group for one date, and otherwise the sweep's groups of the sorted dates |
| DateUtils.Sweep | lib/utils.ts:33-50 | the loop's groups are the left-to-right groups of the sorted dates: a date joining the previous one stretches the open group, any other date closes it and opens a new one |
| DateUtils.GroupsOfStep | lib/utils.ts:36-47 | one more date stretches the last group when it follows within a day or across a weekend, and otherwise opens a new group |
| DateUtils.GroupsOfEnds | lib/utils.ts:34-49 | the groups run from the first sorted date to the last |
| DateUtils.GroupsOfOrdered | lib/utils.ts:36-49 | each group starts no later than it ends, and consecutive groups are separated by a gap the joining rule refuses |
| DateUtils.GroupsOfCover | lib/utils.ts:36-49 | every date lies in some group |
| DateUtils.Parts | lib/utils.ts:83-87 | whole hours, minutes within the hour and seconds within the minute recombine to the input |
| DateUtils.FormatDurationDropsSeconds | lib/utils.ts:91 | from one hour up the seconds are ignored |
| DateUtils.FormatDurationBelowHour | lib/utils.ts:86-88 | below an hour the minutes and seconds shown recombine to the input, the seconds left out when 0 |
| DateUtils.FormatDurationExamples | lib/utils.ts:78-92 | 45 s reads `45sec`, 90 s `1min 30sec`, 3600 s `1h`, 3725 s `1h 2min` |
| DateUtils.JoinWithComma | lib/utils.ts:73-75 | a list whose first part is non-empty joins to a non-empty text |
| DateUtils.CommaPieces | lib/utils.ts:73-75 | one piece per part |
| DateUtils.JoinWithCommaSplits | lib/utils.ts:73-75 | splitting the comma-joined text at commas gives the parts back, each later one behind its space |
| DateUtils.FormatDateRange | lib/utils.ts:67-76 | the empty set gives the empty text; any other set gives the groups of its sorted dates, each formatted, joined by `, `, and is non-empty when no date formats to the empty text |
| DateUtils.FormatGroups | lib/utils.ts:73-75 | one text per group, the k-th being the k-th group formatted |
| DataProcessing.Column | lib/services/dataProcessing.ts:75-80 | one field of every record, in record order |
| DataProcessing.DedupColumnStep | lib/services/dataProcessing.ts:75-80 | adding one record to a set kept in insertion order appends its value only when new |
| DataProcessing.AddValue | lib/services/dataProcessing.ts:76-79 | one `add` leaves the set holding the distinct values of the records so far |
| DataProcessing.ProcessBasicMetadata | lib/services/dataProcessing.ts:69-88 | the loop yields the number of distinct ids, the distinct activities and regions in first-seen order and the distinct dates sorted |
| DataProcessing.EmployeeCountMeaning | lib/services/dataProcessing.ts:83 | the employee count is the number of distinct record ids |
| DataProcessing.ActivitiesAndRegionsMeaning | lib/services/dataProcessing.ts:84-85 | activities and regions are listed once each, exactly those some record names |
| DataProcessing.DatesMeaning | lib/services/dataProcessing.ts:86 | the dates are the distinct record dates, ascending |
| DataProcessing.ColumnMembers | lib/services/dataProcessing.ts:75-80 | a value is in the set exactly when some record carries it |
| DataProcessing.ProcessDateMetrics | lib/services/dataProcessing.ts:90-119 | fails exactly when a record's date is not listed; otherwise one entry per listed date holding that date's metrics |
| DataProcessing.InitialMetrics | lib/services/dataProcessing.ts:93-99 | every listed date starts at zero with nobody missing |
| DataProcessing.AddRecords | lib/services/dataProcessing.ts:101-110 | fails exactly when a record's date is not listed; otherwise the durations, present ids and date order match the records |
| DataProcessing.AddRecord | lib/services/dataProcessing.ts:103-110 | one record keeps the accumulated durations and present ids in step with the records so far |
| DataProcessing.AccumulateStep | lib/services/dataProcessing.ts:104-109 | adding one record's duration and id keeps the accumulation invariant |
| DataProcessing.AddPresence | lib/services/dataProcessing.ts:112-116 | every date with records gets its employee count and missing employees; the keys stay |
| DataProcessing.UnseenDateHasNoDuration | lib/services/dataProcessing.ts:109 | a date without records has no duration |
| DataProcessing.PresentNeverShrinks | lib/services/dataProcessing.ts:105-108 | a record never removes a present id |
| DataProcessing.PresentOnMeaning | lib/services/dataProcessing.ts:105-108 | the ids present on a date are listed once each, exactly those recorded that day |
| DataProcessing.EmployeeCountIsDistinctIds | lib/services/dataProcessing.ts:113 | a date's employee count is the number of distinct ids recorded that day |
| DataProcessing.DurationOnIsSum | lib/services/dataProcessing.ts:109 | a date's duration is the sum of its records' durations |
| DataProcessing.MissingMeaning | lib/services/dataProcessing.ts:114-115 | the missing employees are those of the full list, in its order, with no record that day |
| DataProcessing.CreateMetadataMeaning | lib/services/dataProcessing.ts:121-131 | over the dataset's own basic metadata the range runs from the earliest record date to the latest (none without records), and the expected count is the number of distinct ids |
| DataProcessing.DateBounds | lib/services/dataProcessing.ts:124-125 | every record date lies between the first and last sorted date |
| DataProcessing.FilterData | lib/services/dataProcessing.ts:133-136 | the records whose activity is not hidden, and no others |
| DataProcessing.FilterDataOrder | lib/services/dataProcessing.ts:133-136 | filtering distributes over concatenation, keeps everything with nothing hidden, and is idempotent |
| Grouping.SeenSnoc | components/visualizations/RegionHeatmap.tsx:14-21 | a key is seen in one more record exactly when it was seen before or that record carries it |
| Grouping.TotalsByMeaning | components/visualizations/warehouse/HeatmapOverlay.tsx:28-34 | one entry per key some record carries, listed once each in first-seen order, holding that key's summed duration |
| Grouping.UnseenSumZero | components/visualizations/RegionHeatmap.tsx:17-20 | a key no record carries sums to 0 |
| Grouping.SumForNonNegative | components/visualizations/RegionHeatmap.tsx:20 | with non-negative durations every sum is non-negative |
| Grouping.TotalsWhereIsFiltered | components/visualizations/RegionHeatmap.tsx:14-21 | skipping records inside the loop is summing the filtered records |
| Grouping.HoursForIsSum | components/visualizations/ActivityDistribution.tsx:20 | summing each record's hours is converting the summed seconds |
| ColorConfig.ColorSchemes | config/color.ts:145-151 | the named palettes of the built-in table, copied, in the same order |
| ColorConfig.BuiltInPalettesValid | config/color.ts:5-132 | every built-in palette passes the palette validation |
| ColorConfig.PaletteValid | config/color.ts:5-132 | built-in palette i passes the palette validation |
| ColorConfig.DefaultValid | config/color.ts:6-26 | the Default palette has six valid colours in each list |
| ColorConfig.MonochromeValid | config/color.ts:27-47 | the Monochrome palette has six valid colours in each list |
| ColorConfig.OceanValid | config/color.ts:48-68 | the Ocean palette has six valid colours in each list |
| ColorConfig.ForestValid | config/color.ts:69-89 | the Forest palette has six valid colours in each list |
| ColorConfig.WarmValid | config/color.ts:90-110 | the Warm palette has six valid colours in each list |
| ColorConfig.CoolValid | config/color.ts:111-131 | the Cool palette has six valid colours in each list |
| ColorConfig.ColorsValid | config/color.ts:163-164 | six colours spelled as a hash and six hex digits all match the colour pattern |
| ColorConfig.BuiltInNamesDistinct | config/color.ts:5-132 | the built-in scheme names are pairwise distinct |
| ColorConfig.FindScheme | stores/useColorStore.ts:64 | the first scheme with that name; none exactly when there is none |
| ColorConfig.FindSchemeFirst | stores/useColorStore.ts:64 | the scheme found is the first one carrying the name |
| ColorConfig.GetDefaultPalette | config/color.ts:154-157 | a copy of the Default palette, which passes validation |
| ColorConfig.GenerateDefaultPalette | config/color.ts:168-171 | the same colours as the default palette |
| ColorStore.HexPrefix | stores/useColorStore.ts:8 | the longest run of hex digits starting the text, which is where the parse stops |
| ColorStore.HexPrefixAll | stores/useColorStore.ts:8 | a text of hex digits is read whole |
| ColorStore.ParseInt16OfDigits | stores/useColorStore.ts:8 | a non-empty run of hex digits reads as its value |
| ColorStore.ToInt32 | stores/useColorStore.ts:9-12 | the signed 32-bit value the bit operators see; a value that fits is unchanged |
| ColorStore.ClampChannel | stores/useColorStore.ts:9-11 | the value clamped into [0, 255], unchanged when already there |
| ColorStore.Encode | stores/useColorStore.ts:12 | a hash and six lower-case hex digits spelling the packed bytes |
| ColorStore.AdjustColor | stores/useColorStore.ts:7-13 | always a hash and six lower-case hex digits |
| ColorStore.AdjustNumber | stores/useColorStore.ts:9-12 | the shifted, clamped and re-encoded bytes are a hash and six lower-case hex digits |
| ColorStore.Channel | stores/useColorStore.ts:9-11 | a channel of a colour is a byte |
| ColorStore.ColorValue | stores/useColorStore.ts:8 | the six digits of a colour read as its three channels packed |
| ColorStore.DecodeColor | stores/useColorStore.ts:8 | a colour decodes to its 24-bit value, its channels packed |
| ColorStore.EncodeChannels | stores/useColorStore.ts:12 | the packed bytes render as their three two-digit renderings side by side |
| ColorStore.SixDigits | stores/useColorStore.ts:12 | six padded digits of packed bytes are the bytes' two-digit renderings |
| ColorStore.FourDigits | stores/useColorStore.ts:12 | four padded digits of two packed bytes are their two-digit renderings |
| ColorStore.SplitLow | stores/useColorStore.ts:12 | six padded digits split into the high four and the low two |
| ColorStore.AdjustColorChannels | stores/useColorStore.ts:7-13 | on a colour each channel is shifted and clamped in its own place |
| ColorStore.AdjustBytes | stores/useColorStore.ts:9-12 | a value made of three bytes re-encodes their shifted and clamped values in place |
| ColorStore.AdjustDecoded | stores/useColorStore.ts:9-12 | a value that takes apart into three bytes re-encodes their shifted and clamped values |
| ColorStore.AdjustByZero | stores/useColorStore.ts:7-13 | shifting a colour by zero only lower-cases its digits |
| ColorStore.ReencodeDigits | stores/useColorStore.ts:12 | six digits that read as three bytes re-encode as themselves in lower case |
| ColorStore.ChannelsOf | stores/useColorStore.ts:9-11 | the shifts and masks take a 24-bit value apart into its bytes |
| ColorStore.Clamp | stores/useColorStore.ts:37-38 | the value clamped into the bounds, unchanged when already inside |
| ColorStore.HslPaletteOf | stores/useColorStore.ts:32-43 | one shade per step and none for a non-positive count |
| ColorStore.GenerateHslPalette | stores/useColorStore.ts:32-43 | the loop pushes exactly the specification shades |
| ColorStore.ShadesProgress | stores/useColorStore.ts:36-40 | along a generated list the hue stays, lightness never falls and saturation never rises, both within their clamps |
| ColorStore.ComparisonConfig | stores/useColorStore.ts:72-76 | the hue turned half way round, saturation up 10 but at most 100, the rest kept |
| ColorStore.GenerateColorPalette | stores/useColorStore.ts:68-83 | primary shades from the settings and comparison shades from the turned settings, equally many |
| ColorStore.ChartColorsMeaning | stores/useColorStore.ts:55-66 | a saved palette of the scheme name wins; otherwise the built-in palette of that name or else the Default one, which always validates |
| ColorStore.Store.constructor | stores/useColorStore.ts:48-49 | the Default scheme and no saved palettes |
| ColorStore.Store.GetChartColors | stores/useColorStore.ts:55-66 | the saved palette of the scheme when there is one, otherwise a valid built-in palette |
| ColorStore.Store.SetGlobalScheme | stores/useColorStore.ts:51-53 | only the scheme name changes |
| ColorStore.Store.SaveCustomPalette | stores/useColorStore.ts:85-92 | the one key is inserted or overwritten; nothing else changes |
| ColorStore.Store.DeleteCustomPalette | stores/useColorStore.ts:94-100 | the one key is removed, an absent key changing nothing; nothing else changes |
| ColorStore.SaveThenDeleteRestores | stores/useColorStore.ts:85-100 | saving a new name and deleting it again restores the saved palettes |
| ChartColors.SchemesHaveSixColors | lib/colors.ts:8-33 | every built-in scheme has six colours |
| ChartColors.SchemeHasSixColors | lib/colors.ts:8-33 | built-in scheme i has six colours |
| ChartColors.GetColorScheme | lib/colors.ts:35-37 | a built-in scheme: the one with that name, or the first scheme when none has it |
| ChartColors.FindFirst | lib/colors.ts:36 | the first scheme from a position on with that name, else the first scheme |
| ChartColors.GetColorSchemeFirst | lib/colors.ts:36 | the scheme found is the first one carrying the name |
| ChartColors.FindFirstAt | lib/colors.ts:36 | the search from before the first match finds that match |
| ChartColors.CycledColors | lib/colors.ts:39-45 | exactly the number of colours asked for |
| ChartColors.GetChartColors | lib/colors.ts:39-45 | the scheme's colours repeated cyclically up to the count asked for; a negative count drops that many from the end |
| ChartColors.CycledPrefix | lib/colors.ts:44 | the first count entries of a cyclic repetition are the cycled colours |
| ChartColors.CycledOnce | lib/colors.ts:40 | one copy of the scheme is cyclic |
| ChartColors.AppendKeepsCycle | lib/colors.ts:41-43 | appending another copy keeps every position on its wrapped colour |
| ChartColors.CycleIndex | lib/colors.ts:41-43 | past a whole number of copies a position wraps into the newest copy |
| ChartColors.ShortRequestIsPrefix | lib/colors.ts:39-45 | asking for no more colours than the scheme has gives its first colours |
| PaletteGenerator.GradientOf | components/color-management/ColorPaletteGenerator.tsx:68-75 | exactly the number of shades asked for |
| PaletteGenerator.ComparisonHue | components/color-management/ColorPaletteGenerator.tsx:78 | the hue half way round, on the wheel for a non-negative hue |
| PaletteGenerator.GradientMeaning | components/color-management/ColorPaletteGenerator.tsx:69-74 | along a gradient from a hue on the wheel shade i sits 20i degrees further round, saturation never rises and lightness never falls, both within their clamps |
| PaletteGenerator.GradientHalfTurn | components/color-management/ColorPaletteGenerator.tsx:77-78 | step for step the comparison hue lies 180 degrees round from the primary one |
| PaletteGenerator.ShiftByTurns | components/color-management/ColorPaletteGenerator.tsx:70 | adding whole turns does not change an angle on the wheel |
| PaletteGenerator.Generator.constructor | components/color-management/ColorPaletteGenerator.tsx:50-65 | the given name, the default gradient settings, and the given palette's lists or else the fixed defaults |
| PaletteGenerator.Generator.GenerateGradient | components/color-management/ColorPaletteGenerator.tsx:67-82 | both lists replaced by six shades, the comparison ones from the hue half way round; settings and name kept |
| PaletteGenerator.Generator.UpdatePrimaryColor | components/color-management/ColorPaletteGenerator.tsx:84-90 | the one primary entry is replaced; everything else stays |
| PaletteGenerator.Generator.UpdateComparisonColor | components/color-management/ColorPaletteGenerator.tsx:92-98 | the one comparison entry is replaced; everything else stays |
| PaletteGenerator.Generator.HandleSave | components/color-management/ColorPaletteGenerator.tsx:100-107 | the name as typed with the two lists are handed on exactly when the trimmed name is not empty |
| ColorSettings.SavePresetUnderOwnNameRefused | components/color-management/ColorSettingsTab.tsx:35-38 | while a preset is being edited, saving under its original name is refused with the preset-name error and nothing is stored, selected or closed |
| ColorSettings.SavePresetNameRefused | components/color-management/ColorSettingsTab.tsx:40-44 | a preset's name is refused with the name-conflict error unless it is the name of the palette being edited; nothing else changes |
| ColorSettings.SaveAccepted | components/color-management/ColorSettingsTab.tsx:46-52 | a non-blank name that passes both checks is stored with its palette and selected, and the editor is closed with no edit and no error |
| ColorSettings.SaveBlankIgnored | components/color-management/ColorSettingsTab.tsx:46 | a blank name that passes both checks leaves the tab and the store exactly as they were, error included |
| ColorSettings.HandlersKeepInvariant | components/color-management/ColorSettingsTab.tsx:34-94 | save, edit, cancel and create all keep the invariant: no saved palette carries a preset's name, and an edit is a preset edit exactly when opened on a preset's name |
| ColorSettings.PresetEditUnderOwnNameNeverStored | components/color-management/ColorSettingsTab.tsx:55-83 | opening a preset gives an edit of its colours marked as a preset, and saving it back under the same name never stores it but shows the preset-name error |
| ColorSettings.EditThenSaveOverwrites | components/color-management/ColorSettingsTab.tsx:55-83 | opening a saved palette copies its colours, and saving under the same name overwrites it and selects it |
| ColorSettings.EditUnknownIgnored | components/color-management/ColorSettingsTab.tsx:66-70 | a name that is neither a preset nor saved opens nothing and changes nothing |
| ColorSettings.PresetSchemeShowsPreset | components/color-management/ColorSettingsTab.tsx:47-48 | under the invariant, a selected preset name always resolves to that preset's own colours |
| ColorSettings.SettingsTab.constructor | components/color-management/ColorSettingsTab.tsx:30-32 | the editor starts closed, with no edit and no error, over the given store |
| ColorSettings.SettingsTab.HandleSave | components/color-management/ColorSettingsTab.tsx:34-53 | the new tab and store state is the save rule applied to the old state |
| ColorSettings.SettingsTab.HandleEdit | components/color-management/ColorSettingsTab.tsx:55-83 | the new tab state is the edit rule applied to the old state; the store is untouched |
| ColorSettings.SettingsTab.HandleCancel | components/color-management/ColorSettingsTab.tsx:85-89 | the editor is closed and the edit and the error are cleared; the store is untouched |
| ColorSettings.SettingsTab.HandleCreate | components/color-management/ColorSettingsTab.tsx:91-94 | the editor is opened with no edit and the error left as it was; the store is untouched |
| IconsOverlay.IconFor | components/timeline/ActivityIconsOverlay.tsx:22-31 | an activity has an icon exactly when it is one of the eight activity types |
| IconsOverlay.FormationShape | components/timeline/ActivityIconsOverlay.tsx:34-85 | the formation for k employees, for k from 1 to 8, has exactly k places, all different, none more than 0.6 icon sizes from the centre on either axis |
| IconsOverlay.IconNearItsPoint | components/timeline/ActivityIconsOverlay.tsx:113-119 | with no placement the icon sits on its entry's point; with a formation placement it stays within 0.9 icon sizes of it on each axis |
| IconsOverlay.ScaledOffset | components/timeline/ActivityIconsOverlay.tsx:113-119 | an offset of at most 0.6, scaled by one and a half icon sizes, moves a coordinate by at most 0.9 icon sizes |
| IconsOverlay.GetTextColor | components/timeline/ActivityIconsOverlay.tsx:101-105 | the icon colour is always pure black or pure white |
| IconsOverlay.TextColorOfHexColor | components/timeline/ActivityIconsOverlay.tsx:101-105 | on a six-digit hex colour the icon is black exactly when the weighted channel sum exceeds half of full brightness |
| IconsOverlay.BrightnessScaled | components/timeline/ActivityIconsOverlay.tsx:103-104 | the real-valued brightness test agrees with the same test written over whole numbers |
| IconsOverlay.TextColorWithoutDigits | components/timeline/ActivityIconsOverlay.tsx:102-104 | a background with no hex digits after its first character reads as 0 and gets white icons |
| IconsOverlay.BrightIsMonotone | components/timeline/ActivityIconsOverlay.tsx:103-104 | raising any channel never turns black icons white |
| IconsOverlay.Views | components/timeline/ActivityIconsOverlay.tsx:109 | one view per entry, in order, each the view of that entry |
| IconsOverlay.OverlayIsIconEntries | components/timeline/ActivityIconsOverlay.tsx:109-111 | the overlay draws, in entry order, exactly one view for each entry whose activity has an icon and none for the others |
| IconsOverlay.DrawnIsFiltered | components/timeline/ActivityIconsOverlay.tsx:109-111 | mapping with null for rejected entries is mapping over the entries that pass |
| IconsOverlay.ViewsCons | components/timeline/ActivityIconsOverlay.tsx:109 | the views of a list starting with one entry start with that entry's view |
| Translation.NestedValueAppend | hooks/useTranslation.ts:9-16 | following a key path in two parts is following the second part from where the first one ends, and nothing once the first part is undefined |
| Translation.MissingKeyIsUndefined | hooks/useTranslation.ts:11-14 | from the first key that is missing, or that is applied to something other than an object, the lookup is undefined whatever keys follow |
| Translation.NestedValueFront | hooks/useTranslation.ts:10-13 | each key of the path picks that field of the object reached so far, and anything else gives undefined |
| Translation.ParamText | hooks/useTranslation.ts:20 | a missing parameter, an empty text and the number 0 each fill in as empty text; a text parameter fills in as itself |
| Translation.WordRun | hooks/useTranslation.ts:20 | the longest run of word characters at the start of the text |
| Translation.PlaceholderAt | hooks/useTranslation.ts:20 | a placeholder found at the start names at least one character and fits within the text with both brace pairs |
| Translation.InterpolateString | hooks/useTranslation.ts:18-21 | a message without parameters is returned unchanged |
| Translation.InterpolateTemplate | hooks/useTranslation.ts:18-21 | interpolating a message made of brace-free text and placeholders keeps the text and puts each parameter's text where its placeholder was |
| Translation.InterpolateLiteral | hooks/useTranslation.ts:20 | text without an opening brace passes through interpolation unchanged |
| Translation.InterpolatePlaceholder | hooks/useTranslation.ts:20 | a placeholder at the start is replaced by its parameter's text and interpolation goes on after it |
| Translation.WordRunOf | hooks/useTranslation.ts:20 | the word run of a word followed by a non-word character is the whole word |
| Translation.T | hooks/useTranslation.ts:27-37 | an unknown key comes back as itself; a found value is returned as it is without parameters; it fails exactly when parameters are filled into a found value that is not text |
| Translation.TranslateActivity | hooks/useTranslation.ts:38-40 | the name shown for a known activity reads back to that activity in the same language |
| Translation.OriginalActivity | hooks/useTranslation.ts:41-43 | the activity found for a shown name translates back to that name in the same language |
| ActivityTranslations.TableOf | config/translations/activities.ts:9-30 | each language's table has eight entries |
| ActivityTranslations.ShownName | config/translations/activities.ts:34 | a name is found exactly when some entry lists the activity, and what is found is that entry's name |
| ActivityTranslations.EntryShowing | config/translations/activities.ts:40 | an entry is found exactly when some entry shows that name, and what is found is an entry of the table showing it |
| ActivityTranslations.GetActivityTranslation | config/translations/activities.ts:33-35 | an activity with no entry is returned as itself; one with a non-empty name gets that name |
| ActivityTranslations.GetOriginalActivity | config/translations/activities.ts:38-42 | a name no entry shows is returned as itself; otherwise the result is the activity of an entry showing that name |
| ActivityTranslations.TablesAreInjective | config/translations/activities.ts:9-30 | in both languages each activity is listed once, each name is shown once, and no name is empty |
| ActivityTranslations.EnglishDistinct | config/translations/activities.ts:10-19 | the English table lists eight different activities |
| ActivityTranslations.GermanDistinct | config/translations/activities.ts:20-29 | the German table shows eight different, non-empty names |
| ActivityTranslations.EnglishIsIdentity | config/translations/activities.ts:10-19 | the English table shows every activity under its own name |
| ActivityTranslations.TablesShareActivities | config/translations/activities.ts:9-30 | both tables list the same eight activities in the same order |
| ActivityTranslations.LookupsFindEntry | config/translations/activities.ts:33-42 | in a table that is one-to-one, looking up an entry's activity finds its name and looking up its name finds the entry |
| ActivityTranslations.TranslationRoundTrip | config/translations/activities.ts:33-42 | translating a listed activity and reading the result back gives the activity, in both languages |
| ActivityTranslations.OriginalRoundTrip | config/translations/activities.ts:33-42 | reading back a shown name and translating the activity found gives the name, in both languages |
| ActivityTranslations.RoundTripsOnTable | config/translations/activities.ts:33-42 | both round trips hold for every entry of each table |
| ActivityTranslations.UnknownPassesThrough | config/translations/activities.ts:34-41 | a name that is neither an activity nor a shown name passes through both lookups unchanged |
| Types.PixelRect | components/BaseWarehouseCanvas.tsx:38-43 | the rectangle starts at the scaled top-left corner and ends at the scaled bottom-right corner |
| Types.Lookup | components/timeline/WarehouseCanvas.tsx:104 | a key is found exactly when some pair carries it, and the value found is that of the first such pair |
| Types.JsRem | components/color-management/ColorPaletteGenerator.tsx:70 | JavaScript's remainder: the Euclidean remainder for a non-negative dividend, a value in (-b, 0] for a negative one, and always differing from the dividend by a multiple of the divisor, which fixes it uniquely |
| Types.ModuloUnique | components/color-management/ColorPaletteGenerator.tsx:78 | any quotient-and-remainder split with the remainder on the wheel fixes the remainder |
| Seqs.Filter | lib/services/dataProcessing.ts:133-136 | the elements that pass, in order, and no others |
| Seqs.FilterIdempotent | lib/services/dataProcessing.ts:133-136 | filtering twice with the same test is filtering once |
| Seqs.ToggleMemberTwice | components/visualizations/EmployeeActivity.tsx:96-106 | toggling the same entry twice restores the set |
| Seqs.Dedup | lib/services/dataProcessing.ts:75-85 | the values of a set built in insertion order are exactly the values of the input, never more of them |
| Seqs.DedupDistinct | lib/services/dataProcessing.ts:75-85 | the array made from a set has no repeated value |
| Seqs.DedupOfDistinct | lib/services/dataProcessing.ts:75-85 | a list without repeats is its own set, in the same order |
| Seqs.SortInts | lib/services/dataProcessing.ts:86 | the sorted dates are ascending and a permutation of the input |
| Seqs.SortDesc | components/visualizations/ActivityDistribution.tsx:29 | the comparator sort is descending by hours and a permutation of the input |
| Strs.Split | hooks/useTranslation.ts:28 | splitting at a one-character separator gives at least one part and no part holds the separator |
| Strs.JoinSplit | hooks/useTranslation.ts:28 | joining the parts with the separator gives the key back |
| Strs.ToLower | components/RegionManagement.tsx:46 | same length, each ASCII capital lowered and every other character kept |
| Strs.SortStrings | components/visualizations/TimelineVisualization.tsx:110 | the default sort is ordered character by character and a permutation of the input |
| Strs.NatToString | lib/utils.ts:88 | decimal digits with no leading zero |
| Strs.NatToStringRoundTrip | lib/utils.ts:88 | reading the rendered digits back gives the number |
| Strs.PadStart | stores/useColorStore.ts:12 | the text is kept at the end and filled on the left up to the width, never shortened |
| Hex.ToHexString | stores/useColorStore.ts:12 | at least one hex digit, none of them upper-case or invalid |
| Hex.PaddedHex | stores/useColorStore.ts:12 | padding the hex rendering of a value that fits gives its fixed-width rendering |
| Hex.ParseOfFixedHex | stores/useColorStore.ts:8-12 | reading a fixed-width rendering gives the value back |
| Hex.FixedHexOfParse | stores/useColorStore.ts:8-12 | rendering the value of a run of digits at its own width gives the run back, lower-cased |

## Left out

- Canvas drawing (`fillRect`, `strokeText`, `rotate`, gradients, `drawImage`, `clearRect`) is a foreign effect; only the numbers handed to it are modelled.
- Image loading through `FileReader`/`Image` and its retry, `ResizeObserver` and `requestAnimationFrame` scheduling are browser I/O; the frame throttle's decision is modelled, the scheduling is not.
- React machinery (JSX, hooks, effects, memoisation, re-render order) is not modelled; each component's state becomes a class or a state record, and props become parameters.
- The effect of `TimelineVisualization.tsx` at lines 119-134, which resets the selected date when the data change, is React effect wiring.
- Console output (`console.warn`, `console.error`) is I/O and is dropped.
- The `persist` middleware and local storage around both stores are out of scope; `migrate` is modelled as the default it supplies.
- `crypto.randomUUID` for the merged region's label is randomness; the uuid is a parameter.
- The `useCombinations` and `useRegionCombination` hooks and the `isRegionCombination` guard are wiring and a runtime type test.
- The canvas components' calls of `updateMetadataWithCombinedRegions` are wiring; the function itself is modelled in `RegionCalculations`.
- `handleDelete` and `handleExclude` of the region picker only forward to the store; `removeCombination` is modelled in `RegionStore`, while `toggleExclusion` and `excludedRegions` are not defined in `stores/useRegionStore.ts`, so exclusion is an input set.
- The `onRegionUpdate` callbacks of the region picker are calls into code that is not part of this model.
- `createChartConfigs` in `lib/services/dataProcessing.ts` at lines 28-67 is UI configuration.
- The available-activity list and the outer filtered data of the heatmap component (`ActivityHeatmap.tsx` lines 269-282) belong to its UI shell.
- Floating point is modelled as exact reals: IEEE rounding, `toFixed` and `Math.round` are not modelled, so hours and durations are exact.
- ActivityDistribution.ActivityData: sorts on the exact hours, where the source sorts on hours rounded by `toFixed(2)`; two activities less than 0.005 h apart tie in the source and keep their summary order, while the model puts the larger first.
- NaN and Infinity from dividing by a zero total or count become `None` or an explicit 0 case, as each function's contract says.
- RegionCalculations.MaxRegionId: takes -1 for no remaining regions, where `Math.max()` gives `-Infinity`; the merged id is then 0 rather than `-Infinity`.
- Dates are whole day numbers with a weekday function; date-fns parsing and formatting, the week label and `toLocaleDateString` are parameters or left out.
- DateUtils.Weekday: gives the weekday of the UTC day. `new Date("yyyy-MM-dd")` is UTC midnight while `getDay` reads local time, so west of UTC the source sees the previous weekday; the model takes a zone at or east of UTC, and `DateUtils.Joins` and `DateUtils.GetNextBusinessDay` inherit that assumption.
- ISO date strings sort like day numbers, so `sort()` on dates is modelled as a numeric sort.
- Object key order (`Object.entries`, `Object.keys`) is modelled as first-insertion order, which is what JavaScript gives for non-numeric keys.
- Prototype keys such as `toString` are not special in the model's maps.
- Message tables hold texts, integers, `null` and objects; arrays and non-integer numbers are left out.
- `config/translations/translations.ts` is a data table; it is a parameter of `Translation.T`.
- Strings compare character by character; UTF-16 surrogate pairs are not modelled.
- Strs.ToLower: lowers ASCII capitals only; JavaScript's `toLowerCase` also lowers letters such as `Ä`, which the model keeps, so `RegionManagement` groups such names apart where the source would join them.
- `parseInt` is modelled on unbounded integers; precision loss above 2^53 is left out.
- The `chartId` argument of the colour store's `getChartColors` is unused by the source and is dropped.
- The import path of the heatmap overlay and the filter-settings type file are packaging; the types are declared in `Types`.
- The store's `getChartColors` returns a palette object while `EmployeeActivity.tsx` indexes it like an array; the legend model takes a list of colours.
- `components/ColorPalleteGenerator.tsx` is an older copy of the palette editor with the same rules; it is modelled once, by `PaletteGenerator.Generator` with no initial palette and an empty initial name.
- `components/common/ColorSettingsTab.tsx` is an older copy of the settings tab with the same rules; it is modelled once, by `ColorSettings`.
- PaletteGenerator.Generator.UpdatePrimaryColor: requires an index inside the list; with an index past the end the source would leave holes in a longer array.
- PaletteGenerator.Generator.UpdateComparisonColor: requires an index inside the list, for the same reason.
- ChartColors.GetChartColors: requires a non-empty scheme when colours are asked for, because the source's loop never ends on an empty one.
- TimelineVisualization.UpdateTime: its own contract says only that the clock alone changes; where the clock goes is stated by `TimelineVisualization.UpdateTimeStaysInWindow`.
- The `RegionStore.RegionStoreState` class validates with the corrected rule (see Findings); `RegionStore.ValidateCombination` keeps the rule as written.
- `ActivityHeatmap.RenderHeatmap` uses the corrected final shares of `ActivityHeatmap.FinalizeHeatData` (see Findings).
- In the newer settings tab, a preset opened for editing and saved under its own name is always refused (`ColorSettings.PresetEditUnderOwnNameNeverStored`); this is what the code does and is kept.
- The heatmap tooltip labels a region's share "% of Total" (`components/HeatmapTooltip.tsx` line 92), yet `components/visualizations/ActivityHeatmap.tsx` lines 165-168 take a region's share of the running total at its last record, so the shares of one activity need not add up to 100; the model keeps that computation as written and gives the final-total share as the corrected one (see Findings).
- Presentational components (tooltips, legends, spinners, wrappers), the employee indicator drawing, the language store and switcher, the file uploader and the dashboard data hook are outside the modelled core.

## Findings

| source | as written | input that shows it | evidently intended | confidence | as-written member | corrected member |
|---|---|---|---|---|---|---|
| stores/useRegionStore.ts:29 | an update that keeps its name is accepted at once, skipping the overlap check | combinations `AB = [A, B]` and `CD = [C, D]`; updating `AB` to `AB = [B, C]` is accepted, and `C` then sits in two combinations | the overlap check also applies to a same-name update, so no region is ever in two combinations | not executed | RegionStore.UpdateSameNameBreaksWellFormed | RegionStore.UpdateFixedPreservesWellFormed |
| components/visualizations/ActivityHeatmap.tsx:165-168 | a region's percentage is its share of the running total when its last record is folded in | records A 10, A 20, B 30 for one activity give A 100% and B 50% | each region's share of the final total, so the shares add up to 100 | not executed | ActivityHeatmap.RunningShareCounterexample | ActivityHeatmap.FinalSharesSumTo100 |
